/** What a sequential run owes its plans, and a whole run, retry and merge. */
module BatchProofs {
  import opened Basics
  import opened Verdict
  import opened Preflight
  import opened Batch
  import opened Lookup
  import opened Merge
  import opened RetryRound

  // ----- stopping -----

  /** How many plans start: those that are executed, and one that cannot be announced. */
  function Starts(plans: seq<Plan>, env: Env): nat {
    Executions(plans, env) + if Breaks(plans, env) then 1 else 0
  }

  /** Plan `i` starts although the stop event is already set. */
  predicate StartsStopped(plans: seq<Plan>, env: Env, i: nat) {
    i < Starts(plans, env) && IsSet(env.stop, 2 * i + 1)
  }

  /** At most one plan starts after the stop event is set, and it is the last one to start. */
  lemma AtMostOneStartsAfterStop(plans: seq<Plan>, env: Env, i: nat)
    requires StartsStopped(plans, env, i)
    ensures i + 1 == Starts(plans, env)
  {
    assert IsSet(env.stop, 2 * (i + 1));
  }

  // ----- counting rows -----

  predicate IsLate(p: Plan, env: Env, i: nat) {
    CallOf(p, env.calls(i)).Executed? && env.late(i).Some?
  }

  /** Executed plans below `m` whose line could not be printed after their row was appended. */
  function LateCount(plans: seq<Plan>, env: Env, m: nat): nat
    requires m <= |plans|
  {
    if m == 0 then 0 else LateCount(plans, env, m - 1) + if IsLate(plans[m - 1], env, m - 1) then 1 else 0
  }

  lemma RowsOfCount(p: Plan, env: Env, i: nat)
    ensures |RowsOf(p, env, i)| == 1 + if IsLate(p, env, i) then 1 else 0
  {
  }

  lemma {:induction false} ExecutedRowCount(plans: seq<Plan>, env: Env, m: nat)
    requires m <= |plans|
    ensures |ExecutedRows(plans, env, m)| == m + LateCount(plans, env, m)
  {
    if m > 0 {
      ExecutedRowCount(plans, env, m - 1);
      RowsOfCount(plans[m - 1], env, m - 1);
    }
  }

  lemma {:induction false} PlacesSplit(plans: seq<Plan>, n: nat)
    requires n <= |plans|
    ensures |Places(plans, n, true)| + |Places(plans, n, false)| == n
  {
    if n > 0 {
      PlacesSplit(plans, n - 1);
    }
  }

  /** How many late errors the ready plans of a run meet. */
  function ReadyLates(ready: seq<Plan>, env: Env): nat {
    LateCount(ready, env, Executions(ready, env))
  }

  /** How many late errors a run meets. */
  function Lates(gated: seq<Plan>, env: Env): nat {
    ReadyLates(Ready(gated), env)
  }

  /** How many ready plans a run never comes to, because it breaks. */
  function Lost(gated: seq<Plan>, env: Env): nat {
    if Breaks(Ready(gated), env) then |Ready(gated)| - Executions(Ready(gated), env) else 0
  }

  /**
   The run emits one row for every plan, plus one for every error raised after a row was appended, less one for every
   plan that it never comes to, and less one for every plan that came in marked as skipped while the connectivity check
   is off.
   */
  lemma RowsPerPlan(gated: seq<Plan>, checked: bool, env: Env)
    ensures |RunRows(gated, checked, env)| ==
      |gated| + Lates(gated, env) - Lost(gated, env) - if checked then 0 else |Places(gated, |gated|, true)|
  {
    ExecutedRowCount(Ready(gated), env, Executions(Ready(gated), env));
    PlacesSplit(gated, |gated|);
  }

  // ----- whose row is whose -----

  /** The verdict function of the program. */
  ghost predicate JudgesAsProgram(env: Env) {
    forall r :: env.judge(r) == Judged(r)
  }

  /** All that attributing rows to plans needs of it. */
  ghost predicate KeepsIdentity(env: Env) {
    forall r :: env.judge(r).identity == r.identity
  }

  lemma ProgramKeepsIdentity(env: Env)
    requires JudgesAsProgram(env)
    ensures KeepsIdentity(env)
  {
    forall r ensures env.judge(r).identity == r.identity {
      assert env.judge(r) == Judged(r);
    }
  }

  /** Every executor result carries the identity of the plan it was called for. */
  ghost predicate CopiesIdentity(ready: seq<Plan>, env: Env) {
    forall i :: 0 <= i < |ready| && env.calls(i).Executed? ==> FromPlan(env.calls(i).result, ready[i])
  }

  lemma {:induction false} NoneLate(plans: seq<Plan>, env: Env, m: nat, i: nat)
    requires i < m <= |plans| && LateCount(plans, env, m) == 0
    ensures !IsLate(plans[i], env, i) && LateCount(plans, env, m - 1) == 0
  {
    if i < m - 1 {
      NoneLate(plans, env, m - 1, i);
    }
  }

  lemma {:induction false} ExecutedRowAt(plans: seq<Plan>, env: Env, m: nat, i: nat)
    requires i < m <= |plans| && LateCount(plans, env, m) == 0
    ensures |ExecutedRows(plans, env, m)| == m && [ExecutedRows(plans, env, m)[i]] == RowsOf(plans[i], env, i)
  {
    NoneLate(plans, env, m, m - 1);
    if m > 1 {
      if i < m - 1 {
        ExecutedRowAt(plans, env, m - 1, i);
      } else {
        ExecutedRowAt(plans, env, m - 1, 0);
      }
    }
  }

  /** The rows of an executed plan carry its identity, late or not. */
  lemma RowsAreTheirPlans(p: Plan, env: Env, i: nat)
    requires KeepsIdentity(env)
    requires env.calls(i).Executed? ==> FromPlan(env.calls(i).result, p)
    ensures |RowsOf(p, env, i)| >= 1
    ensures forall j :: 0 <= j < |RowsOf(p, env, i)| ==> FromPlan(RowsOf(p, env, i)[j], p)
  {
    match CallOf(p, env.calls(i)) {
      case Crashed(message) =>
        CrashRowIsItsPlans(p, env, message);
      case Executed(result) =>
        assert env.judge(result).identity == result.identity;
        if env.late(i).Some? {
          CrashRowIsItsPlans(p, env, env.late(i).value);
        }
    }
  }

  lemma CrashRowIsItsPlans(p: Plan, env: Env, message: string)
    requires KeepsIdentity(env)
    ensures FromPlan(CrashRow(p, env, message), p)
  {
    assert env.judge(ResultFor(p, EXEC_ERROR, CRASHED + message)).identity == p.identity.(itemId := "");
  }

  lemma StoppedRowIsItsPlans(p: Plan, env: Env, affected: nat)
    requires KeepsIdentity(env)
    ensures FromPlan(StoppedRow(p, env, affected), p)
  {
  }

  lemma SkipRowIsItsPlans(p: Plan, env: Env)
    requires KeepsIdentity(env)
    ensures FromPlan(SkipRow(p, env), p)
  {
  }

  lemma SequentialRowCount(ready: seq<Plan>, env: Env)
    requires ReadyLates(ready, env) == 0 && !Breaks(ready, env)
    ensures |SequentialRows(ready, env)| == |ready|
  {
    ExecutedRowTotal(ready, env, Executions(ready, env));
  }

  lemma ExecutedPart(ready: seq<Plan>, env: Env, i: nat)
    requires ReadyLates(ready, env) == 0 && i < Executions(ready, env)
    ensures i < |SequentialRows(ready, env)| && [SequentialRows(ready, env)[i]] == RowsOf(ready[i], env, i)
  {
    ExecutedRowAt(ready, env, Executions(ready, env), i);
  }

  lemma StoppedPart(ready: seq<Plan>, env: Env, i: nat)
    requires ReadyLates(ready, env) == 0 && !Breaks(ready, env) && Executions(ready, env) <= i < |ready|
    ensures i < |SequentialRows(ready, env)|
    ensures SequentialRows(ready, env)[i] == StoppedRows(ready, env, Executions(ready, env))[i - Executions(ready, env)]
  {
    ExecutedRowTotal(ready, env, Executions(ready, env));
    SequentialSplit(ready, env, i);
  }

  /** A row of the sequential part is one of its two parts' rows. */
  lemma SequentialSplit(ready: seq<Plan>, env: Env, j: nat)
    ensures var first, n := |ExecutedRows(ready, env, Executions(ready, env))|, Affected(ready, env);
      && |SequentialRows(ready, env)| == first + n
      && (j < first ==> SequentialRows(ready, env)[j] == ExecutedRows(ready, env, Executions(ready, env))[j])
      && (first <= j < first + n ==> SequentialRows(ready, env)[j] == StoppedRows(ready, env, |ready| - n)[j - first])
  {
  }

  lemma StoppedRowAt(ready: seq<Plan>, env: Env, m: nat, k: nat)
    requires KeepsIdentity(env) && m <= |ready| && k < |ready| - m
    ensures FromPlan(StoppedRows(ready, env, m)[k], ready[m + k])
  {
    StoppedRowIsItsPlans(ready[m + k], env, |ready| - m);
  }

  lemma ExecutedRowTotal(plans: seq<Plan>, env: Env, m: nat)
    requires m <= |plans| && LateCount(plans, env, m) == 0
    ensures |ExecutedRows(plans, env, m)| == m
  {
    ExecutedRowCount(plans, env, m);
  }

  /** Row `i` of the sequential part belongs to the `i`-th ready plan. */
  lemma SequentialRowAt(ready: seq<Plan>, env: Env, i: nat)
    requires KeepsIdentity(env) && CopiesIdentity(ready, env) && ReadyLates(ready, env) == 0 && !Breaks(ready, env) && i < |ready|
    ensures i < |SequentialRows(ready, env)| && FromPlan(SequentialRows(ready, env)[i], ready[i])
  {
    if i < Executions(ready, env) {
      ExecutedPart(ready, env, i);
      RowsAreTheirPlans(ready[i], env, i);
      assert RowsOf(ready[i], env, i)[0] == SequentialRows(ready, env)[i];
    } else {
      StoppedPart(ready, env, i);
      StoppedRowAt(ready, env, Executions(ready, env), i - Executions(ready, env));
    }
  }

  /** The plans in the order of their rows: skipped ones first. */
  function RowOwners(gated: seq<Plan>): seq<nat> {
    Places(gated, |gated|, true) + Places(gated, |gated|, false)
  }

  lemma {:induction false} PlacesAre(plans: seq<Plan>, n: nat, skipped: bool)
    requires n <= |plans|
    ensures Distinct(Places(plans, n, skipped))
    ensures forall a: nat :: a in Places(plans, n, skipped) <==> a < n && Skipped(plans[a].status) == skipped
  {
    if n > 0 {
      PlacesAre(plans, n - 1, skipped);
    }
  }

  lemma RowOwnersCover(gated: seq<Plan>)
    ensures Distinct(RowOwners(gated)) && |RowOwners(gated)| == |gated|
    ensures forall a: nat :: a in RowOwners(gated) <==> a < |gated|
  {
    PlacesSplit(gated, |gated|);
    PlacesAre(gated, |gated|, true);
    PlacesAre(gated, |gated|, false);
    var first, second := Places(gated, |gated|, true), Places(gated, |gated|, false);
    forall i, j | 0 <= i < j < |RowOwners(gated)| ensures RowOwners(gated)[i] != RowOwners(gated)[j] {
      if i < |first| <= j {
        assert first[i] in first && second[j - |first|] in second;
      }
    }
  }

  /** A checked run without late errors that does not break gives every plan exactly one row, which carries the plan's identity. */
  lemma EveryPlanHasItsRow(gated: seq<Plan>, env: Env)
    requires KeepsIdentity(env) && CopiesIdentity(Ready(gated), env)
    requires Lates(gated, env) == 0 && !Breaks(Ready(gated), env)
    ensures Attributed(RunRows(gated, true, env), RowOwners(gated), gated) && Distinct(RowOwners(gated))
  {
    var rows, owners := RunRows(gated, true, env), RowOwners(gated);
    var first, second := Places(gated, |gated|, true), Places(gated, |gated|, false);
    RowOwnersCover(gated);
    SequentialRowCount(Ready(gated), env);
    assert |rows| == |owners|;
    forall i | 0 <= i < |rows| ensures owners[i] < |gated| && FromPlan(rows[i], gated[owners[i]]) {
      assert owners[i] in owners;
      if i < |first| {
        SkipRowIsItsPlans(gated[owners[i]], env);
      } else {
        SequentialRowAt(Ready(gated), env, i - |first|);
      }
    }
  }

  /** No plan came in marked as skipped. */
  predicate NoStale(gated: seq<Plan>) {
    forall a :: 0 <= a < |gated| ==> !Skipped(gated[a].status)
  }

  /** Every plan has exactly one row. */
  ghost predicate OneRowEach(rows: seq<Result>, plans: seq<Plan>) {
    exists owner :: OneRowEachBy(rows, owner, plans)
  }

  ghost predicate OneRowEachBy(rows: seq<Result>, owner: seq<nat>, plans: seq<Plan>) {
    |owner| == |plans| && Distinct(owner) && Attributed(rows, owner, plans)
  }

  lemma ReadyIsReady(gated: seq<Plan>, i: nat) returns (a: nat)
    requires i < |Ready(gated)|
    ensures a < |gated| && !Skipped(gated[a].status) && Ready(gated)[i] == gated[a] && Places(gated, |gated|, false)[i] == a
  {
    PlacesAre(gated, |gated|, false);
    a := Places(gated, |gated|, false)[i];
    assert a in Places(gated, |gated|, false);
  }

  lemma PlaceOfReady(gated: seq<Plan>, a: nat) returns (i: nat)
    requires a < |gated| && !Skipped(gated[a].status)
    ensures i < |Ready(gated)| && Ready(gated)[i] == gated[a] && Places(gated, |gated|, false)[i] == a
  {
    PlacesAre(gated, |gated|, false);
    assert a in Places(gated, |gated|, false);
    i :| 0 <= i < |Places(gated, |gated|, false)| && Places(gated, |gated|, false)[i] == a;
  }

  /** How many of the ready plans get rows. */
  function Reached(ready: seq<Plan>, env: Env): (n: nat)
    ensures Executions(ready, env) <= n <= |ready|
  {
    if Breaks(ready, env) then Executions(ready, env) else |ready|
  }

  /** The run comes to the plan: it skips it, runs it or reports it as stopped. */
  ghost predicate HasTurn(gated: seq<Plan>, checked: bool, env: Env, a: nat)
    requires a < |gated|
  {
    if Skipped(gated[a].status) then checked
    else exists i :: 0 <= i < Reached(Ready(gated), env) && Places(gated, |gated|, false)[i] == a
  }

  lemma AllHaveTurnsIff(gated: seq<Plan>, checked: bool, env: Env)
    ensures (forall a: nat :: a < |gated| ==> HasTurn(gated, checked, env, a)) <==>
      !Breaks(Ready(gated), env) && (checked || NoStale(gated))
  {
    if forall a: nat :: a < |gated| ==> HasTurn(gated, checked, env, a) {
      if Breaks(Ready(gated), env) {
        LostHasNoTurn(gated, checked, env);
      }
      forall a | 0 <= a < |gated| ensures Skipped(gated[a].status) ==> checked {
        assert HasTurn(gated, checked, env, a);
      }
    } else {
      var a: nat :| a < |gated| && !HasTurn(gated, checked, env, a);
      if !Skipped(gated[a].status) {
        var i := PlaceOfReady(gated, a);
      }
    }
  }

  lemma LostHasNoTurn(gated: seq<Plan>, checked: bool, env: Env)
    requires Breaks(Ready(gated), env)
    ensures exists a: nat :: a < |gated| && !HasTurn(gated, checked, env, a)
  {
    var m := Executions(Ready(gated), env);
    var a := ReadyIsReady(gated, m);
    PlacesAre(gated, |gated|, false);
    assert !HasTurn(gated, checked, env, a);
  }

  // ----- every row has its plan -----

  lemma ExecutedSplit(ready: seq<Plan>, env: Env, m: nat, j: nat)
    requires 0 < m <= |ready| && j < |ExecutedRows(ready, env, m)|
    ensures var before, rows := ExecutedRows(ready, env, m - 1), RowsOf(ready[m - 1], env, m - 1);
      if j < |before| then ExecutedRows(ready, env, m)[j] == before[j]
      else j - |before| < |rows| && ExecutedRows(ready, env, m)[j] == rows[j - |before|]
  {
  }

  /** Which plan an executed row was added for, and where among that plan's rows it stands. */
  lemma {:induction false} ExecutedBlock(ready: seq<Plan>, env: Env, m: nat, j: nat) returns (b: nat, x: nat)
    requires m <= |ready| && j < |ExecutedRows(ready, env, m)|
    ensures b < m && j == |ExecutedRows(ready, env, b)| + x
    ensures x < |RowsOf(ready[b], env, b)| && ExecutedRows(ready, env, m)[j] == RowsOf(ready[b], env, b)[x]
  {
    ExecutedSplit(ready, env, m, j);
    var before := |ExecutedRows(ready, env, m - 1)|;
    if j < before {
      b, x := ExecutedBlock(ready, env, m - 1, j);
    } else {
      b, x := m - 1, j - before;
    }
  }

  /** Whose row an executed row is. */
  lemma ExecutedRowOf(ready: seq<Plan>, env: Env, m: nat, j: nat) returns (i: nat)
    requires KeepsIdentity(env) && CopiesIdentity(ready, env) && m <= |ready| && j < |ExecutedRows(ready, env, m)|
    ensures i < m && FromPlan(ExecutedRows(ready, env, m)[j], ready[i])
  {
    var x;
    i, x := ExecutedBlock(ready, env, m, j);
    RowsAreTheirPlans(ready[i], env, i);
  }

  lemma StoppedRowOf(ready: seq<Plan>, env: Env, j: nat) returns (i: nat)
    requires KeepsIdentity(env) && |ExecutedRows(ready, env, Executions(ready, env))| <= j < |SequentialRows(ready, env)|
    ensures i == Executions(ready, env) + (j - |ExecutedRows(ready, env, Executions(ready, env))|)
    ensures i < Reached(ready, env) && FromPlan(SequentialRows(ready, env)[j], ready[i])
  {
    SequentialSplit(ready, env, j);
    var k := j - |ExecutedRows(ready, env, Executions(ready, env))|;
    i := Executions(ready, env) + k;
    StoppedRowAt(ready, env, Executions(ready, env), k);
  }

  lemma SequentialRowOf(ready: seq<Plan>, env: Env, j: nat) returns (i: nat)
    requires KeepsIdentity(env) && CopiesIdentity(ready, env) && j < |SequentialRows(ready, env)|
    ensures i < Reached(ready, env) && FromPlan(SequentialRows(ready, env)[j], ready[i])
    ensures var first := |ExecutedRows(ready, env, Executions(ready, env))|;
      if j < first then i < Executions(ready, env) else i == Executions(ready, env) + (j - first)
  {
    if j < |ExecutedRows(ready, env, Executions(ready, env))| {
      SequentialSplit(ready, env, j);
      i := ExecutedRowOf(ready, env, Executions(ready, env), j);
    } else {
      i := StoppedRowOf(ready, env, j);
    }
  }

  lemma SkipRowOf(gated: seq<Plan>, env: Env, j: nat) returns (a: nat)
    requires KeepsIdentity(env) && j < |SkipRows(gated, env)|
    ensures a < |gated| && Skipped(gated[a].status) && FromPlan(SkipRows(gated, env)[j], gated[a])
    ensures Places(gated, |gated|, true)[j] == a
  {
    PlacesAre(gated, |gated|, true);
    a := Places(gated, |gated|, true)[j];
    assert a in Places(gated, |gated|, true);
    SkipRowIsItsPlans(gated[a], env);
  }

  /** A row of a run is one of the gate's rows or one of the sequential part. */
  lemma RunSplit(gated: seq<Plan>, checked: bool, env: Env, j: nat)
    requires j < |RunRows(gated, checked, env)|
    ensures var first, rows := |GateRows(gated, checked, env)|, SequentialRows(Ready(gated), env);
      if j < first then RunRows(gated, checked, env)[j] == GateRows(gated, checked, env)[j]
      else j - first < |rows| && RunRows(gated, checked, env)[j] == rows[j - first]
  {
  }

  lemma RowHasTurn(gated: seq<Plan>, checked: bool, env: Env, j: nat) returns (a: nat)
    requires KeepsIdentity(env) && CopiesIdentity(Ready(gated), env) && j < |RunRows(gated, checked, env)|
    ensures a < |gated| && HasTurn(gated, checked, env, a) && FromPlan(RunRows(gated, checked, env)[j], gated[a])
  {
    RunSplit(gated, checked, env, j);
    var first := |GateRows(gated, checked, env)|;
    if j < first {
      a := SkipRowOf(gated, env, j);
    } else {
      var i := SequentialRowOf(Ready(gated), env, j - first);
      a := ReadyIsReady(gated, i);
    }
  }

  /** Every row of a run belongs to one of its plans, late errors included. */
  lemma EveryRowHasItsPlan(gated: seq<Plan>, checked: bool, env: Env)
    requires KeepsIdentity(env) && CopiesIdentity(Ready(gated), env)
    ensures OfPlans(RunRows(gated, checked, env), gated)
  {
    forall j | 0 <= j < |RunRows(gated, checked, env)| ensures OfSome(RunRows(gated, checked, env)[j], gated) {
      var a := RowHasTurn(gated, checked, env, j);
    }
  }

  // ----- which plans have rows -----

  lemma RowsServe(ready: seq<Plan>, env: Env, i: nat)
    requires KeepsIdentity(env) && CopiesIdentity(ready, env) && i < |ready|
    ensures Served(RowsOf(ready[i], env, i), ready[i])
  {
    RowsAreTheirPlans(ready[i], env, i);
    assert FromPlan(RowsOf(ready[i], env, i)[0], ready[i]);
  }

  lemma ServedConcat(a: seq<Result>, b: seq<Result>, p: Plan)
    requires Served(a, p) || Served(b, p)
    ensures Served(a + b, p)
  {
    if Served(a, p) {
      var j :| 0 <= j < |a| && FromPlan(a[j], p);
      assert (a + b)[j] == a[j];
    } else {
      var j :| 0 <= j < |b| && FromPlan(b[j], p);
      assert (a + b)[|a| + j] == b[j];
    }
  }

  lemma {:induction false} ExecutedServes(ready: seq<Plan>, env: Env, m: nat, i: nat)
    requires KeepsIdentity(env) && CopiesIdentity(ready, env) && i < m <= |ready|
    ensures Served(ExecutedRows(ready, env, m), ready[i])
  {
    if i < m - 1 {
      ExecutedServes(ready, env, m - 1, i);
    } else {
      RowsServe(ready, env, i);
    }
    ServedConcat(ExecutedRows(ready, env, m - 1), RowsOf(ready[m - 1], env, m - 1), ready[i]);
  }

  lemma SequentialServes(ready: seq<Plan>, env: Env, i: nat)
    requires KeepsIdentity(env) && CopiesIdentity(ready, env) && i < Reached(ready, env)
    ensures Served(SequentialRows(ready, env), ready[i])
  {
    var m := Executions(ready, env);
    if i < m {
      ExecutedServes(ready, env, m, i);
    } else {
      StoppedRowAt(ready, env, m, i - m);
    }
    ServedConcat(ExecutedRows(ready, env, m), StoppedRows(ready, env, |ready| - Affected(ready, env)), ready[i]);
  }

  lemma SkipsServe(gated: seq<Plan>, env: Env, a: nat)
    requires KeepsIdentity(env) && a < |gated| && Skipped(gated[a].status)
    ensures Served(SkipRows(gated, env), gated[a])
  {
    PlacesAre(gated, |gated|, true);
    assert a in Places(gated, |gated|, true);
    var j :| 0 <= j < |Places(gated, |gated|, true)| && Places(gated, |gated|, true)[j] == a;
    var b := SkipRowOf(gated, env, j);
  }

  lemma TurnServes(gated: seq<Plan>, checked: bool, env: Env, a: nat)
    requires KeepsIdentity(env) && CopiesIdentity(Ready(gated), env) && a < |gated| && HasTurn(gated, checked, env, a)
    ensures Served(RunRows(gated, checked, env), gated[a])
  {
    if Skipped(gated[a].status) {
      SkipsServe(gated, env, a);
    } else {
      var i :| 0 <= i < Reached(Ready(gated), env) && Places(gated, |gated|, false)[i] == a;
      SequentialServes(Ready(gated), env, i);
    }
    ServedConcat(GateRows(gated, checked, env), SequentialRows(Ready(gated), env), gated[a]);
  }

  /** A plan that can be told apart has a row exactly when the run comes to it. */
  lemma PlanHasRowIff(gated: seq<Plan>, checked: bool, env: Env, a: nat)
    requires KeepsIdentity(env) && CopiesIdentity(Ready(gated), env) && Identifiable(gated) && a < |gated|
    ensures Served(RunRows(gated, checked, env), gated[a]) <==> HasTurn(gated, checked, env, a)
  {
    if HasTurn(gated, checked, env, a) {
      TurnServes(gated, checked, env, a);
    }
    if Served(RunRows(gated, checked, env), gated[a]) {
      var j :| 0 <= j < |RunRows(gated, checked, env)| && FromPlan(RunRows(gated, checked, env)[j], gated[a]);
      var b := RowHasTurn(gated, checked, env, j);
      SamePlan(RunRows(gated, checked, env)[j], gated, a, b);
    }
  }

  // ----- one row each -----

  function Below(n: nat): set<nat> {
    if n == 0 then {} else Below(n - 1) + {n - 1}
  }

  lemma {:induction false} BelowCounts(n: nat)
    ensures |Below(n)| == n && forall x: nat :: x in Below(n) <==> x < n
  {
    if n > 0 { BelowCounts(n - 1); }
  }

  /** A one-to-one attribution leaves no plan out. */
  lemma Surjective(owner: seq<nat>, n: nat, a: nat)
    requires Distinct(owner) && |owner| == n && a < n && forall i :: 0 <= i < |owner| ==> owner[i] < n
    ensures a in owner
  {
    if a !in owner {
      BelowCounts(n);
      DistinctFits(owner, Below(n) - {a});
    }
  }

  lemma OneRowEachServes(rows: seq<Result>, owner: seq<nat>, plans: seq<Plan>, a: nat)
    requires OneRowEachBy(rows, owner, plans) && a < |plans|
    ensures Served(rows, plans[a])
  {
    Surjective(owner, |plans|, a);
    var j :| 0 <= j < |owner| && owner[j] == a;
    assert FromPlan(rows[j], plans[a]);
  }

  lemma OneRowEachTakesTurns(gated: seq<Plan>, checked: bool, env: Env, owner: seq<nat>)
    requires KeepsIdentity(env) && CopiesIdentity(Ready(gated), env) && Identifiable(gated)
    requires OneRowEachBy(RunRows(gated, checked, env), owner, gated)
    ensures !Breaks(Ready(gated), env) && (checked || NoStale(gated))
  {
    forall a: nat | a < |gated| ensures HasTurn(gated, checked, env, a) {
      OneRowEachServes(RunRows(gated, checked, env), owner, gated, a);
      PlanHasRowIff(gated, checked, env, a);
    }
    AllHaveTurnsIff(gated, checked, env);
  }

  lemma OneRowEachCounts(rows: seq<Result>, owner: seq<nat>, plans: seq<Plan>)
    requires OneRowEachBy(rows, owner, plans)
    ensures |rows| == |plans|
  {
  }

  /** Counting the rows is enough, or the plans can be told apart. */
  ghost predicate Countable(gated: seq<Plan>, checked: bool, env: Env) {
    (checked && !Breaks(Ready(gated), env)) || Identifiable(gated)
  }

  lemma OneRowEachNeeds(gated: seq<Plan>, checked: bool, env: Env, owner: seq<nat>)
    requires KeepsIdentity(env) && CopiesIdentity(Ready(gated), env) && Countable(gated, checked, env)
    requires OneRowEachBy(RunRows(gated, checked, env), owner, gated)
    ensures Lates(gated, env) == 0 && !Breaks(Ready(gated), env) && (checked || NoStale(gated))
  {
    RowsPerPlan(gated, checked, env);
    OneRowEachCounts(RunRows(gated, checked, env), owner, gated);
    if Identifiable(gated) {
      OneRowEachTakesTurns(gated, checked, env, owner);
    }
    if !checked {
      NoneSkipped(gated, |gated|);
    }
  }

  lemma OneRowEachHolds(gated: seq<Plan>, checked: bool, env: Env)
    requires KeepsIdentity(env) && CopiesIdentity(Ready(gated), env)
    requires Lates(gated, env) == 0 && !Breaks(Ready(gated), env) && (checked || NoStale(gated))
    ensures OneRowEachBy(RunRows(gated, checked, env), RowOwners(gated), gated)
  {
    RowOwnersCover(gated);
    EveryPlanHasItsRow(gated, env);
    if !checked {
      UncheckedRunIsTheSame(gated, env);
    }
  }

  /**
   Every plan has exactly one row if and only if no executed plan meets an error after its row was appended, the run does
   not break because a plan cannot be announced, and, when the connectivity check is off, no plan came in marked as
   skipped.
   */
  lemma OneRowEachIff(gated: seq<Plan>, checked: bool, env: Env)
    requires KeepsIdentity(env) && CopiesIdentity(Ready(gated), env) && Countable(gated, checked, env)
    ensures OneRowEach(RunRows(gated, checked, env), gated) <==>
      Lates(gated, env) == 0 && !Breaks(Ready(gated), env) && (checked || NoStale(gated))
  {
    if OneRowEach(RunRows(gated, checked, env), gated) {
      var owner :| OneRowEachBy(RunRows(gated, checked, env), owner, gated);
      OneRowEachNeeds(gated, checked, env, owner);
    }
    if Lates(gated, env) == 0 && !Breaks(Ready(gated), env) && (checked || NoStale(gated)) {
      OneRowEachHolds(gated, checked, env);
    }
  }

  /** Without plans marked as skipped, such as clones, it makes no difference whether the connectivity check is on. */
  lemma UncheckedRunIsTheSame(gated: seq<Plan>, env: Env)
    requires NoStale(gated)
    ensures RunRows(gated, false, env) == RunRows(gated, true, env)
  {
    NoneSkipped(gated, |gated|);
    assert SkipRows(gated, env) == [];
  }

  lemma {:induction false} NoneSkipped(plans: seq<Plan>, n: nat)
    requires n <= |plans| && forall i :: 0 <= i < |plans| ==> !Skipped(plans[i].status)
    ensures Places(plans, n, true) == []
  {
    if n > 0 {
      NoneSkipped(plans, n - 1);
    }
  }

  // ----- verdicts -----

  lemma {:induction false} ExecutedRowsAreJudged(plans: seq<Plan>, env: Env, m: nat)
    requires m <= |plans| && forall r :: env.judge(r).verdict != ""
    ensures forall i :: 0 <= i < |ExecutedRows(plans, env, m)| ==> ExecutedRows(plans, env, m)[i].verdict != ""
  {
    if m > 0 {
      ExecutedRowsAreJudged(plans, env, m - 1);
    }
  }

  /** No row leaves a run without a verdict, late errors and stops included. */
  lemma EveryRowHasAVerdict(gated: seq<Plan>, checked: bool, env: Env)
    requires JudgesAsProgram(env)
    ensures forall i :: 0 <= i < |RunRows(gated, checked, env)| ==> RunRows(gated, checked, env)[i].verdict != ""
  {
    forall r ensures env.judge(r).verdict != "" {
      VerdictRanks(r);
      assert env.judge(r) == Judged(r);
    }
    SequentialRowsAreJudged(Ready(gated), env);
    var skips := Select(gated, Places(gated, |gated|, true));
    forall i | 0 <= i < |SkipRows(gated, env)| ensures SkipRows(gated, env)[i].verdict != "" {
      assert SkipRows(gated, env)[i] == SkipRow(skips[i], env);
    }
  }

  lemma SequentialRowsAreJudged(ready: seq<Plan>, env: Env)
    requires forall r :: env.judge(r).verdict != ""
    ensures forall i :: 0 <= i < |SequentialRows(ready, env)| ==> SequentialRows(ready, env)[i].verdict != ""
  {
    var from := |ready| - Affected(ready, env);
    ExecutedRowsAreJudged(ready, env, Executions(ready, env));
    var stopped := StoppedRows(ready, env, from);
    forall j | 0 <= j < |stopped| ensures stopped[j].verdict != "" {
      assert stopped[j] == StoppedRow(ready[from + j], env, |ready| - from);
    }
  }

  /** The exception to one row per plan: a single plan whose result line cannot be printed ends with two rows. */
  lemma LateErrorDoublesTheRow(p: Plan, r: Result, env: Env)
    requires p.protocol.SSH? && !Skipped(p.status) && env.stop.Never? && env.calls(0) == Executed(r)
    requires env.opening(0).None? && env.late(0) == Some("encoding error")
    ensures RunRows([p], true, env) == [env.judge(r), CrashRow(p, env, "encoding error")]
  {
    assert Places([p], 0, false) == [] && Places([p], 0, true) == [];
    assert Places([p], 1, false) == Places([p], 0, false) + [0] && Places([p], 1, true) == [];
    assert Ready([p]) == [p];
    assert ExecutedRows([p], env, 1) == [] + RowsOf(p, env, 0);
    assert EndIndex(0, 1, env) == 1;
  }

  // ----- two failed rows of one plan -----

  /** An executed plan whose result failed, and whose line then could not be printed. */
  predicate FailsLate(ready: seq<Plan>, env: Env, i: nat) {
    && i < Executions(ready, env) && IsLate(ready[i], env, i) && IsFailed(env.judge(CallOf(ready[i], env.calls(i)).result))
  }

  ghost predicate SomeFailsLate(ready: seq<Plan>, env: Env) {
    exists i: nat :: FailsLate(ready, env, i)
  }

  predicate TwoFailed(rows: seq<Result>, h: nat, i: nat, p: Plan) {
    h < i < |rows| && FromPlan(rows[h], p) && FromPlan(rows[i], p) && IsFailed(rows[h]) && IsFailed(rows[i])
  }

  lemma TwoRowsAreLate(p: Plan, env: Env, i: nat, x: nat, y: nat)
    requires x < y < |RowsOf(p, env, i)|
    ensures IsLate(p, env, i) && RowsOf(p, env, i)[x] == env.judge(CallOf(p, env.calls(i)).result)
  {
  }

  /** An executed row of a plan was added for that plan. */
  lemma OwnBlock(ready: seq<Plan>, env: Env, m: nat, j: nat, a: nat) returns (x: nat)
    requires KeepsIdentity(env) && CopiesIdentity(ready, env) && Identifiable(ready) && a < |ready|
    requires m <= |ready| && j < |ExecutedRows(ready, env, m)| && FromPlan(ExecutedRows(ready, env, m)[j], ready[a])
    ensures a < m && j == |ExecutedRows(ready, env, a)| + x
    ensures x < |RowsOf(ready[a], env, a)| && ExecutedRows(ready, env, m)[j] == RowsOf(ready[a], env, a)[x]
  {
    var b;
    b, x := ExecutedBlock(ready, env, m, j);
    RowsAreTheirPlans(ready[b], env, b);
    SamePlan(ExecutedRows(ready, env, m)[j], ready, a, b);
  }

  lemma TwoFailedExecuted(ready: seq<Plan>, env: Env, h: nat, i: nat, a: nat)
    requires KeepsIdentity(env) && CopiesIdentity(ready, env) && Identifiable(ready) && a < |ready|
    requires TwoFailed(ExecutedRows(ready, env, Executions(ready, env)), h, i, ready[a])
    ensures FailsLate(ready, env, a)
  {
    var x := OwnBlock(ready, env, Executions(ready, env), h, a);
    var y := OwnBlock(ready, env, Executions(ready, env), i, a);
    TwoRowsAreLate(ready[a], env, a, x, y);
  }

  lemma TwoFailedSequential(ready: seq<Plan>, env: Env, h: nat, i: nat, a: nat)
    requires KeepsIdentity(env) && CopiesIdentity(ready, env) && Identifiable(ready) && a < |ready|
    requires TwoFailed(SequentialRows(ready, env), h, i, ready[a])
    ensures FailsLate(ready, env, a)
  {
    var b := SequentialRowOf(ready, env, h);
    var c := SequentialRowOf(ready, env, i);
    SamePlan(SequentialRows(ready, env)[h], ready, a, b);
    SamePlan(SequentialRows(ready, env)[i], ready, a, c);
    if i < |ExecutedRows(ready, env, Executions(ready, env))| {
      SequentialSplit(ready, env, h);
      SequentialSplit(ready, env, i);
      TwoFailedExecuted(ready, env, h, i, a);
    }
  }

  lemma ReadyIsIdentifiable(gated: seq<Plan>)
    requires Identifiable(gated)
    ensures Identifiable(Ready(gated))
  {
    var ready := Ready(gated);
    PlacesAre(gated, |gated|, false);
    forall i | 0 <= i < |ready| ensures ready[i].identity.taskName != "" {
      var a := ReadyIsReady(gated, i);
    }
    forall i, j | 0 <= i < j < |ready|
      ensures ready[i].identity.planId != ready[j].identity.planId
      ensures ready[i].identity.itemId != "" ==> ready[i].identity.itemId != ready[j].identity.itemId
    {
      var a := ReadyIsReady(gated, i);
      var b := ReadyIsReady(gated, j);
    }
  }

  /** A row of the sequential part belongs to no plan but a ready one. */
  lemma SequentialRowIsOf(gated: seq<Plan>, env: Env, j: nat, a: nat) returns (x: nat)
    requires KeepsIdentity(env) && CopiesIdentity(Ready(gated), env) && Identifiable(gated) && a < |gated|
    requires j < |SequentialRows(Ready(gated), env)| && FromPlan(SequentialRows(Ready(gated), env)[j], gated[a])
    ensures x < |Ready(gated)| && Ready(gated)[x] == gated[a] && !Skipped(gated[a].status)
  {
    x := SequentialRowOf(Ready(gated), env, j);
    var b := ReadyIsReady(gated, x);
    SamePlan(SequentialRows(Ready(gated), env)[j], gated, a, b);
  }

  lemma GateRowIsOf(gated: seq<Plan>, env: Env, j: nat, a: nat)
    requires KeepsIdentity(env) && Identifiable(gated) && a < |gated|
    requires j < |SkipRows(gated, env)| && FromPlan(SkipRows(gated, env)[j], gated[a])
    ensures Skipped(gated[a].status) && j < |Places(gated, |gated|, true)| && Places(gated, |gated|, true)[j] == a
  {
    var b := SkipRowOf(gated, env, j);
    SamePlan(SkipRows(gated, env)[j], gated, a, b);
  }

  lemma TwoRowsAreOfReady(gated: seq<Plan>, checked: bool, env: Env, h: nat, i: nat, a: nat)
    requires KeepsIdentity(env) && CopiesIdentity(Ready(gated), env) && Identifiable(gated) && a < |gated|
    requires h < i < |RunRows(gated, checked, env)|
    requires FromPlan(RunRows(gated, checked, env)[h], gated[a]) && FromPlan(RunRows(gated, checked, env)[i], gated[a])
    ensures !Skipped(gated[a].status)
  {
    if Skipped(gated[a].status) {
      SkippedHasOneRow(gated, checked, env, h, i, a);
    }
  }

  lemma RowOfReadyIsSequential(gated: seq<Plan>, checked: bool, env: Env, j: nat, a: nat)
    requires KeepsIdentity(env) && Identifiable(gated) && a < |gated| && !Skipped(gated[a].status)
    requires j < |RunRows(gated, checked, env)| && FromPlan(RunRows(gated, checked, env)[j], gated[a])
    ensures |GateRows(gated, checked, env)| <= j
  {
    RunSplit(gated, checked, env, j);
    if j < |GateRows(gated, checked, env)| {
      GateRowIsOf(gated, env, j, a);
    }
  }

  lemma TwoFailedBehind(gated: seq<Plan>, checked: bool, env: Env, h: nat, i: nat, p: Plan) returns (k: nat, l: nat)
    requires TwoFailed(RunRows(gated, checked, env), h, i, p) && |GateRows(gated, checked, env)| <= h
    ensures TwoFailed(SequentialRows(Ready(gated), env), k, l, p)
  {
    RunSplit(gated, checked, env, h);
    RunSplit(gated, checked, env, i);
    k, l := h - |GateRows(gated, checked, env)|, i - |GateRows(gated, checked, env)|;
  }

  /** A plan has two failed rows only when its result failed and its line then could not be printed. */
  lemma TwoFailedInRun(gated: seq<Plan>, checked: bool, env: Env, h: nat, i: nat, a: nat)
    requires KeepsIdentity(env) && CopiesIdentity(Ready(gated), env) && Identifiable(gated) && a < |gated|
    requires TwoFailed(RunRows(gated, checked, env), h, i, gated[a])
    ensures SomeFailsLate(Ready(gated), env)
  {
    TwoRowsAreOfReady(gated, checked, env, h, i, a);
    RowOfReadyIsSequential(gated, checked, env, h, a);
    var k, l := TwoFailedBehind(gated, checked, env, h, i, gated[a]);
    TwoFailedOfReady(gated, env, k, l, a);
  }

  lemma TwoFailedOfReady(gated: seq<Plan>, env: Env, k: nat, l: nat, a: nat)
    requires KeepsIdentity(env) && CopiesIdentity(Ready(gated), env) && Identifiable(gated) && a < |gated|
    requires !Skipped(gated[a].status) && TwoFailed(SequentialRows(Ready(gated), env), k, l, gated[a])
    ensures SomeFailsLate(Ready(gated), env)
  {
    var x := PlaceOfReady(gated, a);
    ReadyIsIdentifiable(gated);
    TwoFailedSequential(Ready(gated), env, k, l, x);
  }

  lemma RowOfSkipped(gated: seq<Plan>, checked: bool, env: Env, i: nat, a: nat)
    requires KeepsIdentity(env) && CopiesIdentity(Ready(gated), env) && Identifiable(gated) && a < |gated|
    requires i < |RunRows(gated, checked, env)| && Skipped(gated[a].status) && FromPlan(RunRows(gated, checked, env)[i], gated[a])
    ensures i < |Places(gated, |gated|, true)| && Places(gated, |gated|, true)[i] == a
  {
    var first := |GateRows(gated, checked, env)|;
    RunSplit(gated, checked, env, i);
    if i < first {
      GateRowIsOf(gated, env, i, a);
    } else {
      var x := SequentialRowIsOf(gated, env, i - first, a);
    }
  }

  lemma SkippedHasOneRow(gated: seq<Plan>, checked: bool, env: Env, h: nat, i: nat, a: nat)
    requires KeepsIdentity(env) && CopiesIdentity(Ready(gated), env) && Identifiable(gated) && a < |gated|
    requires h < |RunRows(gated, checked, env)| && i < |RunRows(gated, checked, env)| && Skipped(gated[a].status)
    requires FromPlan(RunRows(gated, checked, env)[h], gated[a]) && FromPlan(RunRows(gated, checked, env)[i], gated[a])
    ensures h == i
  {
    RowOfSkipped(gated, checked, env, h, a);
    RowOfSkipped(gated, checked, env, i, a);
    PlacesAre(gated, |gated|, true);
  }

  /** The two rows of a plan that meets a late error. */
  predicate BothRows(rows: seq<Result>, h: nat, p: Plan, env: Env, i: nat) {
    && CallOf(p, env.calls(i)).Executed? && env.late(i).Some?
    && h + 1 < |rows| && rows[h] == env.judge(CallOf(p, env.calls(i)).result) && rows[h + 1] == CrashRow(p, env, env.late(i).value)
  }

  lemma BothRowsIn(a: seq<Result>, b: seq<Result>, h: nat, p: Plan, env: Env, i: nat)
    requires BothRows(a, h, p, env, i)
    ensures BothRows(a + b, h, p, env, i) && BothRows(b + a, |b| + h, p, env, i)
  {
  }

  lemma {:induction false} LateRows(ready: seq<Plan>, env: Env, m: nat, i: nat) returns (h: nat)
    requires i < m <= |ready| && IsLate(ready[i], env, i)
    ensures BothRows(ExecutedRows(ready, env, m), h, ready[i], env, i)
  {
    var before := ExecutedRows(ready, env, m - 1);
    if i < m - 1 {
      h := LateRows(ready, env, m - 1, i);
      BothRowsIn(before, RowsOf(ready[m - 1], env, m - 1), h, ready[i], env, i);
    } else {
      h := |before|;
      BothRowsIn(RowsOf(ready[i], env, i), before, 0, ready[i], env, i);
    }
  }

  lemma LateRowsOfRun(gated: seq<Plan>, checked: bool, env: Env, i: nat) returns (h: nat)
    requires i < Executions(Ready(gated), env) && IsLate(Ready(gated)[i], env, i)
    ensures BothRows(RunRows(gated, checked, env), h, Ready(gated)[i], env, i)
  {
    var ready := Ready(gated);
    h := LateRows(ready, env, Executions(ready, env), i);
    BothRowsIn(ExecutedRows(ready, env, Executions(ready, env)), StoppedRows(ready, env, |ready| - Affected(ready, env)), h, ready[i], env, i);
    BothRowsIn(SequentialRows(ready, env), GateRows(gated, checked, env), h, ready[i], env, i);
    h := |GateRows(gated, checked, env)| + h;
  }
}
