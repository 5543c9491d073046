/** The retry wrapper around one executor call. */
module Retry {
  import opened Basics
  import opened Verdict

  /** What the executor does on one call. */
  datatype Attempt = Returned(result: Result) | Raised(message: string)

  const WRAPPED := "Retry wrapper exception: "

  function ResultOf(p: Plan, a: Attempt): Result {
    if a.Returned? then a.result else ResultFor(p, EXEC_ERROR, WRAPPED + a.message)
  }

  datatype Record = Record(index: nat, maxRetries: nat, status: string, reason: string)

  datatype Retried = Retried(
    result: Result, records: seq<Record>, retryCount: nat, attemptCount: nat, maxAttempts: nat, finalIndex: nat,
    reasons: seq<string>, delays: seq<nat>)

  function Max(a: int, b: int): int {
    if a >= b then a else b
  }

  predicate Stops(p: Plan, calls: nat -> Attempt, i: nat) {
    var r := ResultOf(p, calls(i));
    r.status == EXEC_SUCCESS || !IsRetryable(r)
  }

  /** The number of retries allowed in the end: a plan without any gets one when its first attempt fails transiently. */
  function Allowed(p: Plan, calls: nat -> Attempt): nat {
    if p.retryCount <= 0 && IsTransient(ResultOf(p, calls(0))) then 1 else Max(0, p.retryCount)
  }

  /** The attempt that decides: the first one that stops, or the last one allowed. */
  ghost predicate Decides(p: Plan, calls: nat -> Attempt, last: nat) {
    && last <= Allowed(p, calls)
    && (forall i: nat :: i < last ==> !Stops(p, calls, i))
    && (Stops(p, calls, last) || last == Allowed(p, calls))
  }

  lemma OneAttemptDecides(p: Plan, calls: nat -> Attempt, a: nat, b: nat)
    requires Decides(p, calls, a) && Decides(p, calls, b)
    ensures a == b
  {
  }

  function ReasonOf(r: Result): string {
    if r.reason != "" then r.reason else r.status
  }

  function Delay(i: nat): (d: nat)
    ensures 1 <= d <= 5
  {
    if i == 0 then 1 else if i == 1 then 2 else if i == 2 then 4 else 5
  }

  method ExecuteWithRetry(p: Plan, calls: nat -> Attempt) returns (r: Retried)
    ensures r.attemptCount >= 1 && Decides(p, calls, r.attemptCount - 1)
    ensures r.result == ResultOf(p, calls(r.attemptCount - 1))
    ensures r.maxAttempts == Allowed(p, calls) + 1
    ensures r.records == seq(r.attemptCount, i requires i >= 0 =>
      var x := ResultOf(p, calls(i)); Record(i, Allowed(p, calls), x.status, x.reason))
    ensures r.reasons == seq(r.attemptCount - 1, i requires i >= 0 => ReasonOf(ResultOf(p, calls(i))))
    ensures r.delays == seq(r.attemptCount - 1, i requires i >= 0 => Delay(i))
    ensures r.retryCount == r.attemptCount - 1 && r.finalIndex == r.attemptCount
  {
    var maxRetries := Max(0, p.retryCount);
    var result := ResultFor(p, "", "");
    var records: seq<Record> := [];
    var reasons: seq<string> := [];
    var delays: seq<nat> := [];
    var i := 0;
    while i <= maxRetries
      invariant i == |records| == |reasons| == |delays|
      invariant i <= maxRetries
      invariant maxRetries == if i == 0 then Max(0, p.retryCount) else Allowed(p, calls)
      invariant forall j :: 0 <= j < i ==>
        records[j].index == j && records[j].status == ResultOf(p, calls(j)).status && records[j].reason == ResultOf(p, calls(j)).reason
      invariant forall j :: 0 <= j < i ==> reasons[j] == ReasonOf(ResultOf(p, calls(j))) && delays[j] == Delay(j)
      invariant forall j: nat :: j < i ==> !Stops(p, calls, j)
      decreases Max(1, p.retryCount) - i
    {
      result := ResultOf(p, calls(i));
      records := records + [Record(i, maxRetries, result.status, result.reason)];
      if result.status == EXEC_SUCCESS {
        break;
      }
      var retryable := IsRetryable(result);
      if IsTransient(result) && maxRetries < 1 {
        maxRetries := 1;
      }
      if !retryable {
        break;
      }
      if i >= maxRetries {
        break;
      }
      reasons := reasons + [ReasonOf(result)];
      delays := delays + [Delay(i)];
      i := i + 1;
    }
    var attempts := |records|;
    records := seq(attempts, j requires 0 <= j < attempts => records[j].(maxRetries := maxRetries));
    r := Retried(result, records, attempts - 1, attempts, maxRetries + 1, attempts, reasons, delays);
  }

  /** The loop ends although its bound can grow: never more than two attempts or one more than the configured retries. */
  lemma AttemptsAreBounded(p: Plan, calls: nat -> Attempt, last: nat)
    requires Decides(p, calls, last)
    ensures last + 1 <= Max(2, p.retryCount + 1)
    ensures forall i: nat :: i < last ==>
      IsRetryable(ResultOf(p, calls(i))) && ResultOf(p, calls(i)).status != EXEC_SUCCESS
    ensures last < Allowed(p, calls) ==>
      ResultOf(p, calls(last)).status == EXEC_SUCCESS || !IsRetryable(ResultOf(p, calls(last)))
    ensures p.retryCount <= 0 && IsTransient(ResultOf(p, calls(0))) ==> last == 1
    ensures p.retryCount <= 0 && !IsTransient(ResultOf(p, calls(0))) ==> last == 0
  {
    forall i: nat | i < last
      ensures IsRetryable(ResultOf(p, calls(i))) && ResultOf(p, calls(i)).status != EXEC_SUCCESS
    {
      assert !Stops(p, calls, i);
    }
    RetryableIff(ResultOf(p, calls(0)));
    if p.retryCount <= 0 && IsTransient(ResultOf(p, calls(0))) {
      assert !Stops(p, calls, 0);
    }
  }

  // ----- in words -----

  /** One, two, four, and from then on five seconds. */
  lemma DelaysAre(i: nat)
    ensures Delay(0) == 1 && Delay(1) == 2 && Delay(2) == 4 && (i >= 3 ==> Delay(i) == 5)
  {
  }

  /** An attempt that raised counts as an error with that text. */
  lemma AttemptIs(p: Plan, a: Attempt)
    ensures a.Returned? ==> ResultOf(p, a) == a.result
    ensures a.Raised? ==>
      ResultOf(p, a).status == "EXEC_ERROR" && ResultOf(p, a).reason == "Retry wrapper exception: " + a.message
      && ResultOf(p, a).identity == p.identity.(itemId := "")
  {
  }

  /** Which attempt ends the loop, and how many retries there may be. */
  lemma StopsIff(p: Plan, calls: nat -> Attempt, i: nat)
    ensures var r := ResultOf(p, calls(i));
      Stops(p, calls, i) <==>
        || r.status == "EXEC_SUCCESS" || Hopeless(r.reason)
        || !(r.status == "EXEC_TIMEOUT" || r.status == "EXEC_FAILED" || (r.status == "EXEC_ERROR" && Broke(r.reason)))
    ensures var first := ResultOf(p, calls(0));
      Allowed(p, calls) ==
        if p.retryCount >= 1 then p.retryCount
        else if Broke(first.reason) && !Hopeless(first.reason)
          && (first.status == "EXEC_TIMEOUT" || first.status == "EXEC_FAILED" || first.status == "EXEC_ERROR") then 1
        else 0
    ensures ReasonOf(ResultOf(p, calls(i))) ==
      if ResultOf(p, calls(i)).reason == "" then ResultOf(p, calls(i)).status else ResultOf(p, calls(i)).reason
  {
    WorthAnotherIff(ResultOf(p, calls(i)));
    WorthAnotherIff(ResultOf(p, calls(0)));
  }
}
