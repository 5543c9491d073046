/**
 The callback outbox: one file of records per plan. `MarkFailed` reads, changes and rewrites the file in one
 critical section; the other markings find a copy of the record first and rewrite the file with it later.
 */
module Outbox {
  import opened Basics

  datatype Delivery = PENDING | SENDING | SENT | FAILED_RETRYABLE | FAILED_FINAL | URL_NOT_CONFIGURED

  /** `body` stands for all callback fields, which the outbox only carries along. */
  datatype Item = Item(
    id: string,
    body: string,
    delivery: Delivery,
    attempts: nat,
    lastErrorCode: int,
    lastErrorMessage: string,
    nextRetryAt: real,
    updatedAt: real)

  type File = seq<Item>

  const MAX_RETRY_ATTEMPTS := 5
  const RETRY_BACKOFF_BASE := 5.0

  function Pow2(n: nat): (r: nat)
    ensures r >= 1
  {
    if n == 0 then 1 else 2 * Pow2(n - 1)
  }

  /** Seconds to wait after the given number of failures. */
  function Backoff(failures: nat): real
    requires failures >= 1
  {
    RETRY_BACKOFF_BASE * Pow2(failures - 1) as real
  }

  /** The first record with this id, or the length of the file. */
  function Find(f: File, id: string): (k: nat)
    ensures k <= |f|
    ensures forall j :: 0 <= j < k ==> f[j].id != id
    ensures k < |f| ==> f[k].id == id
  {
    if f == [] || f[0].id == id then 0 else 1 + Find(f[1..], id)
  }

  /** The attempts recorded for an id. */
  function Attempts(f: File, id: string): nat {
    var k := Find(f, id);
    if k < |f| then f[k].attempts else 0
  }

  datatype Failure = Failure(code: int, message: string, retryable: bool)

  function Failed(item: Item, e: Failure, now: real): Item {
    var n := item.attempts + 1;
    var final := !e.retryable || n >= MAX_RETRY_ATTEMPTS;
    item.(attempts := n,
          lastErrorCode := e.code,
          lastErrorMessage := e.message,
          delivery := if final then FAILED_FINAL else FAILED_RETRYABLE,
          nextRetryAt := if final then 0.0 else now + Backoff(n),
          updatedAt := now)
  }

  /** The waiting times: five seconds after the first failure, twice as long after each further one, and no fifth retry. */
  lemma FailedIs(item: Item, e: Failure, now: real)
    ensures Failed(item, e, now).attempts == item.attempts + 1
    ensures !e.retryable || item.attempts >= 4 ==>
      Failed(item, e, now) == item.(attempts := item.attempts + 1, lastErrorCode := e.code, lastErrorMessage := e.message,
                                    delivery := FAILED_FINAL, nextRetryAt := 0.0, updatedAt := now)
    ensures e.retryable && item.attempts < 4 ==>
      Failed(item, e, now) == item.(attempts := item.attempts + 1, lastErrorCode := e.code, lastErrorMessage := e.message,
                                    delivery := FAILED_RETRYABLE, nextRetryAt := now + Wait(item.attempts + 1), updatedAt := now)
  {
    BackoffIs(item.attempts + 1);
  }

  /** Seconds, written out. */
  function Wait(failures: nat): real {
    if failures == 1 then 5.0 else if failures == 2 then 10.0 else if failures == 3 then 20.0 else 40.0
  }

  lemma BackoffIs(n: nat)
    ensures 1 <= n <= 4 ==> Backoff(n) == Wait(n)
  {
    if 1 <= n <= 4 {
      assert Pow2(0) == 1 && Pow2(1) == 2 && Pow2(2) == 4 && Pow2(3) == 8;
    }
  }

  function FailedFile(f: File, id: string, e: Failure, now: real): File {
    var k := Find(f, id);
    if k < |f| then f[k := Failed(f[k], e, now)] else f
  }

  /** The file rewritten with a copy that was read earlier. */
  function Rewritten(f: File, item: Item, now: real): File {
    var k := Find(f, item.id);
    if k < |f| then f[k := item.(updatedAt := now)] else f
  }

  predicate Due(item: Item, now: real) {
    (item.delivery == PENDING || item.delivery == FAILED_RETRYABLE)
    && (item.nextRetryAt == 0.0 || item.nextRetryAt <= now)
  }

  ghost function DueAt(now: real): Item -> bool {
    item => Due(item, now)
  }

  lemma FindIsFirst(f: File, id: string, k: nat)
    requires k <= |f| && (forall j :: 0 <= j < k ==> f[j].id != id) && (k < |f| ==> f[k].id == id)
    ensures Find(f, id) == k
  {
  }

  /** What an update came to: no such record, rewritten, or an error while writing the temporary file. */
  datatype Update = NotFound | Done | WriteFailed

  class CallbackOutbox {
    var file: File

    constructor ()
      ensures file == []
    {
      file := [];
    }

    method Append(item: Item, now: real)
      modifies this
      ensures file == old(file) + [item.(updatedAt := now)]
    {
      file := file + [item.(updatedAt := now)];
    }

    /** `disk` tells whether writing and renaming the temporary file works; if not, the old file stays. */
    method MarkFailed(id: string, e: Failure, now: real, disk: bool) returns (r: Update)
      modifies this
      ensures r == if Find(old(file), id) == |old(file)| then NotFound else if disk then Done else WriteFailed
      ensures file == if r.Done? then FailedFile(old(file), id, e, now) else old(file)
    {
      var all := file;
      var i := 0;
      while i < |all|
        invariant i <= |all| && all == file
        invariant forall j :: 0 <= j < i ==> all[j].id != id
      {
        if all[i].id == id {
          FindIsFirst(all, id, i);
          var item := all[i];
          item := item.(attempts := item.attempts + 1, lastErrorCode := e.code, lastErrorMessage := e.message);
          if !e.retryable || item.attempts >= MAX_RETRY_ATTEMPTS {
            item := item.(delivery := FAILED_FINAL, nextRetryAt := 0.0);
          } else {
            item := item.(delivery := FAILED_RETRYABLE, nextRetryAt := now + Backoff(item.attempts));
          }
          all := all[i := item.(updatedAt := now)];
          if !disk {
            return WriteFailed;
          }
          file := all;
          return Done;
        }
        i := i + 1;
      }
      FindIsFirst(all, id, i);
      return NotFound;
    }

    method FindItem(id: string) returns (r: Option<Item>)
      ensures r == var k := Find(file, id); if k < |file| then Some(file[k]) else None
    {
      var i := 0;
      while i < |file|
        invariant i <= |file|
        invariant forall j :: 0 <= j < i ==> file[j].id != id
      {
        if file[i].id == id {
          FindIsFirst(file, id, i);
          return Some(file[i]);
        }
        i := i + 1;
      }
      FindIsFirst(file, id, i);
      return None;
    }

    method UpdateExisting(item: Item, now: real, disk: bool) returns (r: Update)
      modifies this
      ensures r == if Find(old(file), item.id) == |old(file)| then NotFound else if disk then Done else WriteFailed
      ensures file == if r.Done? then Rewritten(old(file), item, now) else old(file)
    {
      var all := file;
      var i := 0;
      while i < |all|
        invariant i <= |all| && all == file
        invariant forall j :: 0 <= j < i ==> all[j].id != item.id
      {
        if all[i].id == item.id {
          FindIsFirst(all, item.id, i);
          all := all[i := item.(updatedAt := now)];
          if !disk {
            return WriteFailed;
          }
          file := all;
          return Done;
        }
        i := i + 1;
      }
      FindIsFirst(all, item.id, i);
      return NotFound;
    }

    /** Undisturbed, the two sections of a marking change the delivery status and the time of update, nothing else. */
    method UpdateItem(id: string, delivery: Delivery, now: real, disk: bool) returns (r: Update)
      modifies this
      ensures r == if Find(old(file), id) == |old(file)| then NotFound else if disk then Done else WriteFailed
      ensures var k := Find(old(file), id);
        file == if r.Done? then old(file)[k := old(file)[k].(delivery := delivery, updatedAt := now)] else old(file)
    {
      var item := FindItem(id);
      if item.None? {
        return NotFound;
      }
      r := UpdateExisting(item.value.(delivery := delivery), now, disk);
    }

    method GetPending(now: real) returns (due: seq<Item>)
      ensures due == Filter(file, DueAt(now))
    {
      due := [];
      var i := 0;
      while i < |file|
        invariant 0 <= i <= |file|
        invariant due == Filter(file[..i], DueAt(now))
      {
        FilterNext(file, i, DueAt(now));
        if Due(file[i], now) {
          due := due + [file[i]];
        }
        i := i + 1;
      }
      assert file[..i] == file;
    }
  }
}
