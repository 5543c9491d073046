/** Matching results with plans by identity keys, and merging the results of a retry round into the original ones. */
module Merge {
  import opened Basics
  import opened Verdict

  datatype Key =
    | ItemKey(itemId: string)
    | TaskKey(planId: string, device: string, taskId: string)
    | ClientKey(planId: string, device: string, clientTaskId: string)
    | NameKey(planId: string, device: string, taskName: string)

  function OneKey(present: bool, k: Key): seq<Key> {
    if present then [k] else []
  }

  function ResultKeys(i: Identity): seq<Key> {
    OneKey(i.itemId != "", ItemKey(i.itemId))
    + OneKey(i.taskId != "", TaskKey(i.planId, i.device, i.taskId))
    + OneKey(i.clientTaskId != "", ClientKey(i.planId, i.device, i.clientTaskId))
    + OneKey(i.taskName != "", NameKey(i.planId, i.device, i.taskName))
  }

  /** A plan without a task id is keyed by its task name there. */
  function PlanKeys(i: Identity): seq<Key> {
    ResultKeys(i.(taskId := if i.taskId != "" then i.taskId else i.taskName))
  }

  const RULE_FAILED := "RULE_FAILED"
  const RULE_PARSE_FAILED := "RULE_PARSE_FAILED"
  const CHECK_FAIL := "CHECK_FAIL"
  const ARTIFACT_FAILED := "ARTIFACT_FAILED"
  const FAIL := "FAIL"
  const EXEC_SKIPPED_PRECHECK := "EXEC_SKIPPED_PRECHECK"
  const EXEC_SKIPPED_PORT := "EXEC_SKIPPED_PORT"
  const EXEC_SKIPPED_DISABLED := "EXEC_SKIPPED_DISABLED"
  const EXEC_SKIPPED_ROUTE_CHANGED := "EXEC_SKIPPED_ROUTE_CHANGED"
  const EXEC_SKIPPED_STOPPED := "EXEC_SKIPPED_STOPPED"

  predicate IsFailed(r: Result) {
    || r.status != EXEC_SUCCESS
    || r.ruleStatus == RULE_FAILED || r.ruleStatus == RULE_PARSE_FAILED
    || r.checkpointStatus == CHECK_FAIL
    || r.artifactStatus == ARTIFACT_FAILED
    || r.verdict == FAIL
  }

  predicate NeverRetried(status: string) {
    || StartsWith(status, EXEC_SKIPPED_PRECHECK) || StartsWith(status, EXEC_SKIPPED_PORT)
    || StartsWith(status, EXEC_SKIPPED_DISABLED) || StartsWith(status, EXEC_SKIPPED_ROUTE_CHANGED)
    || StartsWith(status, EXEC_SKIPPED_STOPPED)
  }

  predicate IsRetryableFailed(r: Result) {
    IsFailed(r) && !NeverRetried(r.status)
  }

  // ----- merging -----

  predicate Carries(r: Result, k: Key) {
    k in ResultKeys(r.identity)
  }

  /** The first result that carries the key, or the number of results. */
  function FirstWith(results: seq<Result>, k: Key): (j: nat)
    ensures j <= |results|
    ensures forall i :: 0 <= i < j ==> !Carries(results[i], k)
    ensures j < |results| ==> Carries(results[j], k)
  {
    FirstWhere(results, (r: Result) => Carries(r, k))
  }

  /** A retry result chosen for a row, and the key that led to it. */
  datatype Pick = Pick(key: Key, retry: nat)

  predicate Free(retry: seq<Result>, key: Key, usedKeys: set<Key>, used: set<nat>) {
    FirstWith(retry, key) < |retry| && key !in usedKeys && FirstWith(retry, key) !in used
  }

  function Choose(keys: seq<Key>, retry: seq<Result>, usedKeys: set<Key>, used: set<nat>): (p: Option<Pick>)
    ensures p.Some? ==>
      p.value.key in keys && Free(retry, p.value.key, usedKeys, used) && FirstWith(retry, p.value.key) == p.value.retry
    ensures p.None? ==> forall k :: k in keys ==> !Free(retry, k, usedKeys, used)
  {
    if keys == [] then None
    else if Free(retry, keys[0], usedKeys, used) then Some(Pick(keys[0], FirstWith(retry, keys[0])))
    else Choose(keys[1..], retry, usedKeys, used)
  }

  function PickFor(r: Result, retry: seq<Result>, usedKeys: set<Key>, used: set<nat>): Option<Pick> {
    if IsFailed(r) then Choose(ResultKeys(r.identity), retry, usedKeys, used) else None
  }

  function KeysOf(picks: seq<Option<Pick>>): set<Key> {
    set i | 0 <= i < |picks| && picks[i].Some? :: picks[i].value.key
  }

  function RetriesOf(picks: seq<Option<Pick>>): set<nat> {
    set i | 0 <= i < |picks| && picks[i].Some? :: picks[i].value.retry
  }

  /** Each row in turn takes the first free retry result its keys lead to. */
  function Picks(original: seq<Result>, retry: seq<Result>): (picks: seq<Option<Pick>>)
    ensures |picks| == |original|
  {
    if original == [] then []
    else
      var before := Picks(original[..|original| - 1], retry);
      before + [PickFor(original[|original| - 1], retry, KeysOf(before), RetriesOf(before))]
  }

  function Row(r: Result, retry: seq<Result>, pick: Option<Pick>): Result {
    if pick.Some? && pick.value.retry < |retry| then retry[pick.value.retry] else r
  }

  function Merged(original: seq<Result>, retry: seq<Result>): (merged: seq<Result>)
    ensures |merged| == |original|
  {
    seq(|original|, i requires 0 <= i < |original| => Row(original[i], retry, Picks(original, retry)[i]))
  }

  lemma Extend(picks: seq<Option<Pick>>, pick: Option<Pick>)
    ensures KeysOf(picks + [pick]) == KeysOf(picks) + if pick.Some? then {pick.value.key} else {}
    ensures RetriesOf(picks + [pick]) == RetriesOf(picks) + if pick.Some? then {pick.value.retry} else {}
  {
    var more := picks + [pick];
    assert forall i :: 0 <= i < |picks| ==> more[i] == picks[i];
    assert more[|picks|] == pick;
  }

  lemma {:induction false} PicksOfPrefix(original: seq<Result>, retry: seq<Result>, n: nat)
    requires n <= |original|
    ensures Picks(original[..n], retry) == Picks(original, retry)[..n]
  {
    if n < |original| {
      var shorter := original[..|original| - 1];
      PicksOfPrefix(shorter, retry, n);
      assert shorter[..n] == original[..n];
    } else {
      assert original[..n] == original;
    }
  }

  lemma PickAt(original: seq<Result>, retry: seq<Result>, i: nat)
    requires i < |original|
    ensures var picks := Picks(original, retry); picks[i] == PickFor(original[i], retry, KeysOf(picks[..i]), RetriesOf(picks[..i]))
  {
    PicksOfPrefix(original, retry, i);
    PicksOfPrefix(original, retry, i + 1);
    assert original[..i + 1][..i] == original[..i];
    var picks := Picks(original, retry);
    assert Picks(original[..i + 1], retry)[i] == picks[..i + 1][i];
  }

  lemma PickStep(original: seq<Result>, retry: seq<Result>, i: nat)
    requires i < |original|
    ensures var picks := Picks(original, retry); var pick := picks[i];
      && pick == PickFor(original[i], retry, KeysOf(picks[..i]), RetriesOf(picks[..i]))
      && KeysOf(picks[..i + 1]) == KeysOf(picks[..i]) + (if pick.Some? then {pick.value.key} else {})
      && RetriesOf(picks[..i + 1]) == RetriesOf(picks[..i]) + (if pick.Some? then {pick.value.retry} else {})
  {
    var picks := Picks(original, retry);
    PickAt(original, retry, i);
    Extend(picks[..i], picks[i]);
    assert picks[..i + 1] == picks[..i] + [picks[i]];
  }

  // ----- the program's loops -----

  ghost predicate IsIndex(byKey: map<Key, nat>, retry: seq<Result>) {
    forall k :: if k in byKey then byKey[k] == FirstWith(retry, k) < |retry| else FirstWith(retry, k) == |retry|
  }

  lemma FirstWithSnoc(results: seq<Result>, r: Result, k: Key)
    ensures FirstWith(results + [r], k) ==
      if FirstWith(results, k) < |results| then FirstWith(results, k)
      else if Carries(r, k) then |results| else |results| + 1
  {
    FirstWhereSnoc(results, r, (x: Result) => Carries(x, k));
  }

  method AddKeys(byKey: map<Key, nat>, keys: seq<Key>, n: nat) returns (r: map<Key, nat>)
    ensures forall k :: k in r <==> k in byKey || k in keys
    ensures forall k :: k in r ==> r[k] == if k in byKey then byKey[k] else n
  {
    r := byKey;
    var i := 0;
    while i < |keys|
      invariant i <= |keys|
      invariant forall k :: k in r <==> k in byKey || k in keys[..i]
      invariant forall k :: k in r ==> r[k] == if k in byKey then byKey[k] else n
    {
      assert keys[..i + 1] == keys[..i] + [keys[i]];
      if keys[i] !in r {
        r := r[keys[i] := n];
      }
      i := i + 1;
    }
    assert keys[..|keys|] == keys;
  }

  method IndexRetries(retry: seq<Result>) returns (byKey: map<Key, nat>)
    ensures IsIndex(byKey, retry)
  {
    byKey := map[];
    var n := 0;
    while n < |retry|
      invariant n <= |retry| && IsIndex(byKey, retry[..n])
    {
      byKey := AddKeys(byKey, ResultKeys(retry[n].identity), n);
      assert retry[..n + 1] == retry[..n] + [retry[n]];
      forall k ensures FirstWith(retry[..n + 1], k) ==
        if FirstWith(retry[..n], k) < n then FirstWith(retry[..n], k) else if Carries(retry[n], k) then n else n + 1
      {
        FirstWithSnoc(retry[..n], retry[n], k);
      }
      n := n + 1;
    }
    assert retry[..n] == retry;
  }

  method ChooseFor(keys: seq<Key>, byKey: map<Key, nat>, usedKeys: set<Key>, used: set<nat>, ghost retry: seq<Result>)
    returns (pick: Option<Pick>)
    requires IsIndex(byKey, retry)
    ensures pick == Choose(keys, retry, usedKeys, used)
  {
    var i := 0;
    while i < |keys|
      invariant i <= |keys| && Choose(keys, retry, usedKeys, used) == Choose(keys[i..], retry, usedKeys, used)
    {
      if keys[i] in byKey && keys[i] !in usedKeys && byKey[keys[i]] !in used {
        return Some(Pick(keys[i], byKey[keys[i]]));
      }
      assert keys[i..][1..] == keys[i + 1..];
      i := i + 1;
    }
    return None;
  }

  /** The result for row `i`, and the keys and retry results used up to there. */
  method ChooseNext(original: seq<Result>, i: nat, byKey: map<Key, nat>, usedKeys: set<Key>, used: set<nat>, ghost retry: seq<Result>)
    returns (pick: Option<Pick>, usedKeys': set<Key>, used': set<nat>)
    requires IsIndex(byKey, retry) && i < |original|
    requires usedKeys == KeysOf(Picks(original, retry)[..i]) && used == RetriesOf(Picks(original, retry)[..i])
    ensures pick == Picks(original, retry)[i] && (pick.Some? ==> pick.value.retry < |retry|)
    ensures usedKeys' == KeysOf(Picks(original, retry)[..i + 1]) && used' == RetriesOf(Picks(original, retry)[..i + 1])
  {
    PickStep(original, retry, i);
    pick, usedKeys', used' := None, usedKeys, used;
    if IsFailed(original[i]) {
      pick := ChooseFor(ResultKeys(original[i].identity), byKey, usedKeys, used, retry);
    }
    if pick.Some? {
      used' := used' + {pick.value.retry};
      usedKeys' := usedKeys' + {pick.value.key};
    }
  }

  method MergeRetryResults(original: seq<Result>, retry: seq<Result>) returns (merged: seq<Result>)
    ensures merged == Merged(original, retry)
  {
    var byKey := IndexRetries(retry);
    merged := [];
    var usedKeys: set<Key>, used: set<nat> := {}, {};
    ghost var picks := Picks(original, retry);
    var i := 0;
    while i < |original|
      invariant i <= |original| && |merged| == i
      invariant usedKeys == KeysOf(picks[..i]) && used == RetriesOf(picks[..i])
      invariant forall j :: 0 <= j < i ==> merged[j] == Row(original[j], retry, picks[j])
    {
      var pick;
      pick, usedKeys, used := ChooseNext(original, i, byKey, usedKeys, used, retry);
      merged := merged + [if pick.None? then original[i] else retry[pick.value.retry]];
      i := i + 1;
    }
  }

  // ----- what merging guarantees -----

  /**
   Without any assumption on uniqueness: only failed rows are replaced, each by a retry result that shares an identity
   key with it, and no retry result and no key serves two rows.
   */
  lemma MergeIsSafe(original: seq<Result>, retry: seq<Result>)
    ensures var picks := Picks(original, retry);
      && (forall i :: 0 <= i < |picks| && picks[i].Some? ==>
            && IsFailed(original[i]) && picks[i].value.retry < |retry| && Merged(original, retry)[i] == retry[picks[i].value.retry]
            && Carries(original[i], picks[i].value.key) && Carries(retry[picks[i].value.retry], picks[i].value.key))
      && (forall i :: 0 <= i < |picks| && picks[i].None? ==> Merged(original, retry)[i] == original[i])
      && (forall i, j :: 0 <= i < j < |picks| && picks[i].Some? && picks[j].Some? ==>
            picks[i].value.key != picks[j].value.key && picks[i].value.retry != picks[j].value.retry)
  {
    var picks := Picks(original, retry);
    forall i | 0 <= i < |picks| ensures picks[i] == PickFor(original[i], retry, KeysOf(picks[..i]), RetriesOf(picks[..i])) {
      PickAt(original, retry, i);
    }
    forall i, j | 0 <= i < j < |picks| && picks[i].Some? && picks[j].Some?
      ensures picks[i].value.key != picks[j].value.key && picks[i].value.retry != picks[j].value.retry
    {
      assert picks[..j][i] == picks[i];
      assert picks[i].value.key in KeysOf(picks[..j]) && picks[i].value.retry in RetriesOf(picks[..j]);
    }
  }

  predicate Took(pick: Option<Pick>, k: Key, n: nat) {
    pick.Some? && (pick.value.key == k || pick.value.retry == n)
  }

  lemma TakenBefore(r: Result, before: seq<Option<Pick>>, retry: seq<Result>, k: Key)
    requires IsFailed(r) && PickFor(r, retry, KeysOf(before), RetriesOf(before)).None?
    requires Carries(r, k) && FirstWith(retry, k) < |retry|
    ensures exists j :: 0 <= j < |before| && Took(before[j], k, FirstWith(retry, k))
  {
    assert !Free(retry, k, KeysOf(before), RetriesOf(before));
    if k in KeysOf(before) {
      var j :| 0 <= j < |before| && before[j].Some? && before[j].value.key == k;
      assert Took(before[j], k, FirstWith(retry, k));
    } else {
      var j :| 0 <= j < |before| && before[j].Some? && before[j].value.retry == FirstWith(retry, k);
      assert Took(before[j], k, FirstWith(retry, k));
    }
  }

  /** A failed row is left as it is only if, for each of its keys that a retry result carries, key or result went to an earlier row. */
  lemma MergeIsComplete(original: seq<Result>, retry: seq<Result>, i: nat, k: Key)
    requires i < |original| && Picks(original, retry)[i].None? && IsFailed(original[i])
    requires Carries(original[i], k) && FirstWith(retry, k) < |retry|
    ensures exists j :: 0 <= j < i && Took(Picks(original, retry)[j], k, FirstWith(retry, k))
  {
    PickAt(original, retry, i);
    var before := Picks(original, retry)[..i];
    TakenBefore(original[i], before, retry, k);
    var j :| 0 <= j < i && Took(before[j], k, FirstWith(retry, k));
    assert before[j] == Picks(original, retry)[j];
  }

  // ----- in words -----

  /** Which results count as failed, and which of them are never run again. */
  lemma FailedIff(r: Result)
    ensures IsFailed(r) <==>
      !(r.status == "EXEC_SUCCESS" && r.ruleStatus != "RULE_FAILED" && r.ruleStatus != "RULE_PARSE_FAILED"
        && r.checkpointStatus != "CHECK_FAIL" && r.artifactStatus != "ARTIFACT_FAILED" && r.verdict != "FAIL")
    ensures IsRetryableFailed(r) <==>
      IsFailed(r) && !("EXEC_SKIPPED_PRECHECK" <= r.status) && !("EXEC_SKIPPED_PORT" <= r.status)
      && !("EXEC_SKIPPED_DISABLED" <= r.status) && !("EXEC_SKIPPED_ROUTE_CHANGED" <= r.status)
      && !("EXEC_SKIPPED_STOPPED" <= r.status)
  {
  }

  /** The keys of a result, the most telling first; blank fields give none. */
  lemma KeysAre(i: Identity)
    ensures i.itemId != "" && i.taskId != "" && i.clientTaskId != "" && i.taskName != "" ==>
      ResultKeys(i) == [ItemKey(i.itemId), TaskKey(i.planId, i.device, i.taskId),
                        ClientKey(i.planId, i.device, i.clientTaskId), NameKey(i.planId, i.device, i.taskName)]
    ensures forall k :: k in ResultKeys(i) <==>
      || (i.itemId != "" && k == ItemKey(i.itemId))
      || (i.taskId != "" && k == TaskKey(i.planId, i.device, i.taskId))
      || (i.clientTaskId != "" && k == ClientKey(i.planId, i.device, i.clientTaskId))
      || (i.taskName != "" && k == NameKey(i.planId, i.device, i.taskName))
    ensures i.taskId == "" ==> PlanKeys(i) == ResultKeys(i.(taskId := i.taskName))
    ensures i.taskId != "" ==> PlanKeys(i) == ResultKeys(i)
  {
  }
}
