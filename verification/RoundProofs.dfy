/** A run, the candidates of its results, a run of their clones, and the merge: when every row ends right. */
module RoundProofs {
  import opened Basics
  import opened Verdict
  import opened Preflight
  import opened Batch
  import opened Lookup
  import opened Merge
  import opened RetryRound
  import opened BatchProofs

  ghost predicate SameIdentities(a: seq<Plan>, b: seq<Plan>) {
    |a| == |b| && forall i :: 0 <= i < |a| ==> a[i].identity == b[i].identity
  }

  /** The gate changes status and reason only. */
  lemma GateKeepsIdentities(plans: seq<Plan>, answers: Option<map<string, Row>>, reasons: Plan -> string)
    ensures SameIdentities(AllGated(plans, answers, reasons), plans)
  {
    forall i | 0 <= i < |plans| ensures AllGated(plans, answers, reasons)[i].identity == plans[i].identity {
      if answers.Some? {
        assert AllGated(plans, answers, reasons)[i] == Gated(plans[i], answers.value, reasons(plans[i]));
      }
    }
  }

  ghost predicate AllClonable(plans: seq<Plan>, chosen: seq<nat>) {
    forall c :: 0 <= c < |chosen| ==> chosen[c] < |plans| && Clonable(plans[chosen[c]])
  }

  /** Clones of the chosen plans, whatever the gate has marked on them since. */
  ghost predicate ClonesOf(again: seq<Plan>, plans: seq<Plan>, chosen: seq<nat>) {
    && |again| == |chosen|
    && forall c :: 0 <= c < |chosen| ==> chosen[c] < |plans| && again[c].identity == Clone(plans[chosen[c]]).identity
  }

  /** A run of the clones of the chosen plans that ends without an error. */
  ghost predicate Reruns(plans: seq<Plan>, chosen: seq<nat>, again: seq<Plan>, checked: bool, env: Env) {
    && AllClonable(plans, chosen) && ClonesOf(again, plans, chosen) && (checked || NoStale(again))
    && JudgesAsProgram(env) && CopiesIdentity(Ready(again), env) && !Breaks(Ready(again), env)
  }

  // ----- what a rerun serves -----

  lemma CloneServes(
    r: Result, original: seq<Result>, owner: seq<nat>, plans: seq<Plan>, chosen: seq<nat>, again: seq<Plan>)
    requires |owner| == |original| && chosen == RetryOwners(original, owner) && ClonesOf(again, plans, chosen) && OfSome(r, again)
    ensures Serves(r, original, owner, plans)
  {
    var c :| 0 <= c < |again| && FromPlan(r, again[c]);
    assert chosen[c] in chosen;
    assert Candidate(original, owner, plans, chosen[c]) && FromPlan(r, plans[chosen[c]]);
  }

  lemma CloneServed(rows: seq<Result>, clone: Plan, p: Plan)
    requires clone.identity == Clone(p).identity && Served(rows, clone)
    ensures Served(rows, p)
  {
    var j :| 0 <= j < |rows| && FromPlan(rows[j], clone);
    assert FromPlan(rows[j], p);
  }

  lemma ClonesServe(
    rows: seq<Result>, original: seq<Result>, owner: seq<nat>, plans: seq<Plan>, chosen: seq<nat>, again: seq<Plan>)
    requires Attributed(original, owner, plans) && OneFailedEach(original, owner)
    requires chosen == RetryOwners(original, owner) && ClonesOf(again, plans, chosen)
    requires OfPlans(rows, again) && forall a :: 0 <= a < |again| ==> Served(rows, again[a])
    ensures RetriesFor(rows, original, owner, plans)
  {
    forall j | 0 <= j < |rows| ensures Serves(rows[j], original, owner, plans) {
      assert OfSome(rows[j], again);
      CloneServes(rows[j], original, owner, plans, chosen, again);
    }
    forall a: nat | Candidate(original, owner, plans, a) ensures Served(rows, plans[a]) {
      var c :| 0 <= c < |chosen| && chosen[c] == a;
      CloneServed(rows, again[c], plans[a]);
    }
  }

  lemma EveryCloneIsServed(again: seq<Plan>, checked: bool, env: Env)
    requires KeepsIdentity(env) && CopiesIdentity(Ready(again), env) && !Breaks(Ready(again), env) && (checked || NoStale(again))
    ensures forall a :: 0 <= a < |again| ==> Served(RunRows(again, checked, env), again[a])
  {
    AllHaveTurnsIff(again, checked, env);
    forall a: nat | a < |again| ensures Served(RunRows(again, checked, env), again[a]) {
      assert HasTurn(again, checked, env, a);
      TurnServes(again, checked, env, a);
    }
  }

  /** The rows of a rerun belong, as retries, to the candidates' plans, late errors included. */
  lemma RetryRunServesCandidates(
    plans: seq<Plan>, original: seq<Result>, owner: seq<nat>, chosen: seq<nat>, again: seq<Plan>, checked: bool, env: Env)
    requires Attributed(original, owner, plans) && OneFailedEach(original, owner) && chosen == RetryOwners(original, owner)
    requires Reruns(plans, chosen, again, checked, env)
    ensures RetriesFor(RunRows(again, checked, env), original, owner, plans)
  {
    ProgramKeepsIdentity(env);
    EveryRowHasItsPlan(again, checked, env);
    EveryCloneIsServed(again, checked, env);
    ClonesServe(RunRows(again, checked, env), original, owner, plans, chosen, again);
  }

  // ----- enough -----

  ghost function OwnerOf(r: Result, plans: seq<Plan>): (a: nat)
    requires OfSome(r, plans)
    ensures a < |plans| && FromPlan(r, plans[a])
  {
    var a :| 0 <= a < |plans| && FromPlan(r, plans[a]);
    a
  }

  lemma Owners(rows: seq<Result>, plans: seq<Plan>) returns (owner: seq<nat>)
    requires OfPlans(rows, plans)
    ensures Attributed(rows, owner, plans)
  {
    owner := seq(|rows|, i requires 0 <= i < |rows| => OwnerOf(rows[i], plans));
  }

  lemma SameIdentitiesSamePlans(gated: seq<Plan>, plans: seq<Plan>, rows: seq<Result>)
    requires SameIdentities(gated, plans) && Identifiable(plans)
    ensures Identifiable(gated)
    ensures OfPlans(rows, gated) ==> OfPlans(rows, plans)
  {
    if OfPlans(rows, gated) {
      forall j | 0 <= j < |rows| ensures OfSome(rows[j], plans) {
        assert OfSome(rows[j], gated);
        var a := OwnerOf(rows[j], gated);
        assert FromPlan(rows[j], plans[a]);
      }
    }
  }

  lemma RunFailsOnceEach(plans: seq<Plan>, gated: seq<Plan>, checked: bool, env: Env) returns (owner: seq<nat>)
    requires Identifiable(plans) && SameIdentities(gated, plans)
    requires KeepsIdentity(env) && CopiesIdentity(Ready(gated), env) && !SomeFailsLate(Ready(gated), env)
    ensures Attributed(RunRows(gated, checked, env), owner, plans) && OneFailedEach(RunRows(gated, checked, env), owner)
  {
    var rows := RunRows(gated, checked, env);
    EveryRowHasItsPlan(gated, checked, env);
    SameIdentitiesSamePlans(gated, plans, rows);
    owner := Owners(rows, plans);
    forall h, i | 0 <= h < i < |rows| && owner[h] == owner[i] ensures !(IsFailed(rows[h]) && IsFailed(rows[i])) {
      assert FromPlan(rows[h], gated[owner[h]]) && FromPlan(rows[i], gated[owner[h]]);
      if IsFailed(rows[h]) && IsFailed(rows[i]) {
        TwoFailedInRun(gated, checked, env, h, i, owner[h]);
      }
    }
  }

  /**
   End to end, for one rerun. Whatever is skipped, fails, crashes, stops or breaks in the first run, and whatever goes
   wrong late in the second, every retryable failed row ends with a row of the second run for its plan, and every other
   row stays, unless a failed result of the first run was followed by a late error.
   */
  lemma RetryRoundEndToEnd(
    plans: seq<Plan>, lookup: map<Key, Entry>, gated: seq<Plan>, checked: bool, env: Env,
    again: seq<Plan>, checked': bool, env': Env)
    requires Identifiable(plans) && IsTable(lookup, AllKeys(plans), |plans|) && SameIdentities(gated, plans)
    requires KeepsIdentity(env) && CopiesIdentity(Ready(gated), env) && !SomeFailsLate(Ready(gated), env)
    requires Reruns(plans, Candidates(RunRows(gated, checked, env), plans, lookup), again, checked', env')
    ensures RoundEndsRight(RunRows(gated, checked, env), RunRows(again, checked', env'), plans)
  {
    var original := RunRows(gated, checked, env);
    var owner := RunFailsOnceEach(plans, gated, checked, env);
    CandidatesAreTheFailedPlans(original, owner, plans, lookup);
    RetryRunServesCandidates(plans, original, owner, RetryOwners(original, owner), again, checked', env');
    RoundIsRight(original, owner, RunRows(again, checked', env'), plans);
  }

  // ----- needed -----

  /** The clones as they are made. */
  function AllClones(plans: seq<Plan>, chosen: seq<nat>): (again: seq<Plan>)
    requires forall c :: 0 <= c < |chosen| ==> chosen[c] < |plans|
    ensures |again| == |chosen|
  {
    seq(|chosen|, c requires 0 <= c < |chosen| => Clone(plans[chosen[c]]))
  }

  /** Everything that can succeed does. */
  function Smooth(again: seq<Plan>): Env {
    Env((r: Result) => Judged(r),
        (i: nat) => if i < |again| then Executed(ResultFor(again[i], EXEC_SUCCESS, "")) else Crashed(""),
        i => None, i => None, Never)
  }

  lemma SmoothIsSmooth(again: seq<Plan>)
    requires forall c :: 0 <= c < |again| ==> again[c].status == "PENDING"
    ensures NoStale(again) && Ready(again) == again
    ensures JudgesAsProgram(Smooth(again)) && CopiesIdentity(again, Smooth(again))
    ensures !Breaks(again, Smooth(again)) && Executions(again, Smooth(again)) == |again|
  {
    assert "PENDING"[0] != EXEC_SKIPPED[0];
    AllReady(again, |again|);
    assert Ready(again) == again;
    var env := Smooth(again);
    forall i | 0 <= i < |again| && env.calls(i).Executed? ensures FromPlan(env.calls(i).result, again[i]) {
    }
  }

  lemma {:induction false} AllReady(plans: seq<Plan>, n: nat)
    requires n <= |plans| && NoStale(plans)
    ensures |Places(plans, n, false)| == n && forall i :: 0 <= i < n ==> Places(plans, n, false)[i] == i
  {
    if n > 0 {
      AllReady(plans, n - 1);
    }
  }

  lemma {:induction false} NoneOfSmoothIsLate(again: seq<Plan>, m: nat)
    requires m <= |again|
    ensures LateCount(again, Smooth(again), m) == 0
  {
    if m > 0 {
      NoneOfSmoothIsLate(again, m - 1);
    }
  }

  lemma SmoothRow(again: seq<Plan>, j: nat)
    requires j < |again|
    ensures var rows := RowsOf(again[j], Smooth(again), j);
      |rows| == 1 && rows[0].status != EXEC_ERROR && FromPlan(rows[0], again[j])
  {
    assert EXEC_SUCCESS[5] != EXEC_ERROR[5] && EXEC_FAILED[5] != EXEC_ERROR[5];
  }

  lemma SmoothRows(again: seq<Plan>)
    requires forall c :: 0 <= c < |again| ==> again[c].status == "PENDING"
    ensures RunRows(again, true, Smooth(again)) == SequentialRows(again, Smooth(again))
    ensures ReadyLates(again, Smooth(again)) == 0 && |SequentialRows(again, Smooth(again))| == |again|
  {
    SmoothIsSmooth(again);
    NoneOfSmoothIsLate(again, |again|);
    NoneSkipped(again, |again|);
    EmptyFirst(SequentialRows(again, Smooth(again)));
    assert SkipRows(again, Smooth(again)) == [];
    SequentialRowCount(again, Smooth(again));
  }

  lemma SmoothRowAt(again: seq<Plan>, j: nat)
    requires forall c :: 0 <= c < |again| ==> again[c].status == "PENDING"
    requires j < |RunRows(again, true, Smooth(again))|
    ensures var rows := RunRows(again, true, Smooth(again));
      j < |again| && rows[j].status != EXEC_ERROR && FromPlan(rows[j], again[j])
  {
    SmoothRows(again);
    SmoothIsSmooth(again);
    ExecutedPart(again, Smooth(again), j);
    SmoothRow(again, j);
    assert SequentialRows(again, Smooth(again))[j] == RowsOf(again[j], Smooth(again), j)[0];
  }

  lemma ClonesArePending(plans: seq<Plan>, chosen: seq<nat>)
    requires forall c :: 0 <= c < |chosen| ==> chosen[c] < |plans|
    ensures forall c :: 0 <= c < |chosen| ==> AllClones(plans, chosen)[c].status == "PENDING"
    ensures ClonesOf(AllClones(plans, chosen), plans, chosen)
  {
  }

  lemma SmoothRowOf(plans: seq<Plan>, chosen: seq<nat>, j: nat)
    requires AllClonable(plans, chosen) && j < |RunRows(AllClones(plans, chosen), true, Smooth(AllClones(plans, chosen)))|
    ensures var rows := RunRows(AllClones(plans, chosen), true, Smooth(AllClones(plans, chosen)));
      j < |chosen| && rows[j].status != EXEC_ERROR && FromPlan(rows[j], plans[chosen[j]])
  {
    ClonesArePending(plans, chosen);
    SmoothRowAt(AllClones(plans, chosen), j);
  }

  lemma SmoothReruns(plans: seq<Plan>, chosen: seq<nat>)
    requires AllClonable(plans, chosen)
    ensures Reruns(plans, chosen, AllClones(plans, chosen), true, Smooth(AllClones(plans, chosen)))
  {
    ClonesArePending(plans, chosen);
    SmoothIsSmooth(AllClones(plans, chosen));
  }

  /** Every row belongs to the plan it is a rerun of. */
  ghost predicate RowsOfChosen(rows: seq<Result>, plans: seq<Plan>, chosen: seq<nat>) {
    forall j :: 0 <= j < |rows| ==> RowOfChosen(rows, plans, chosen, j)
  }

  predicate RowOfChosen(rows: seq<Result>, plans: seq<Plan>, chosen: seq<nat>, j: nat)
    requires j < |rows|
  {
    j < |chosen| && chosen[j] < |plans| && FromPlan(rows[j], plans[chosen[j]]) && rows[j].status != EXEC_ERROR
  }

  lemma SmoothRerun(plans: seq<Plan>, chosen: seq<nat>)
    requires AllClonable(plans, chosen)
    ensures RowsOfChosen(RunRows(AllClones(plans, chosen), true, Smooth(AllClones(plans, chosen))), plans, chosen)
  {
    var rows := RunRows(AllClones(plans, chosen), true, Smooth(AllClones(plans, chosen)));
    forall j | 0 <= j < |rows| ensures RowOfChosen(rows, plans, chosen, j) {
      SmoothRowOf(plans, chosen, j);
    }
  }

  lemma ChosenRowsHavePlans(rows: seq<Result>, plans: seq<Plan>, chosen: seq<nat>)
    requires RowsOfChosen(rows, plans, chosen)
    ensures OfPlans(rows, plans)
  {
    forall j | 0 <= j < |rows| ensures OfSome(rows[j], plans) {
      assert RowOfChosen(rows, plans, chosen, j);
    }
  }

  lemma OneRowOf(rows: seq<Result>, plans: seq<Plan>, chosen: seq<nat>, a: nat)
    requires Identifiable(plans) && Distinct(chosen) && a < |plans|
    requires RowsOfChosen(rows, plans, chosen)
    ensures AtMostOne(rows, plans[a])
  {
    forall i, j | 0 <= i < |rows| && 0 <= j < |rows| && FromPlan(rows[i], plans[a]) && FromPlan(rows[j], plans[a]) ensures i == j {
      assert RowOfChosen(rows, plans, chosen, i) && RowOfChosen(rows, plans, chosen, j);
      SamePlan(rows[i], plans, a, chosen[i]);
      SamePlan(rows[j], plans, a, chosen[j]);
    }
  }

  lemma CrashIsRetryable(p: Plan, env: Env, message: string)
    requires JudgesAsProgram(env)
    ensures IsRetryableFailed(CrashRow(p, env, message)) && CrashRow(p, env, message).status == EXEC_ERROR
  {
    var r := CrashRow(p, env, message);
    assert r.status == EXEC_ERROR;
    assert EXEC_ERROR[5] == 'E' && EXEC_SKIPPED_PRECHECK[5] == 'S' && EXEC_SKIPPED_PORT[5] == 'S'
        && EXEC_SKIPPED_DISABLED[5] == 'S' && EXEC_SKIPPED_ROUTE_CHANGED[5] == 'S' && EXEC_SKIPPED_STOPPED[5] == 'S';
  }

  /** The two rows that a failed result and a late error leave, and their plan. */
  lemma FailedTwice(plans: seq<Plan>, gated: seq<Plan>, checked: bool, env: Env) returns (h: nat, a: nat)
    requires Identifiable(plans) && SameIdentities(gated, plans)
    requires JudgesAsProgram(env) && CopiesIdentity(Ready(gated), env) && SomeFailsLate(Ready(gated), env)
    ensures var rows := RunRows(gated, checked, env);
      && h + 1 < |rows| && a < |plans| && FromPlan(rows[h], plans[a]) && FromPlan(rows[h + 1], plans[a])
      && IsFailed(rows[h]) && IsRetryableFailed(rows[h + 1]) && rows[h + 1].status == EXEC_ERROR
  {
    var ready := Ready(gated);
    var i: nat :| FailsLate(ready, env, i);
    h := LateRowsOfRun(gated, checked, env, i);
    a := ReadyIsReady(gated, i);
    ProgramKeepsIdentity(env);
    CrashIsRetryable(ready[i], env, env.late(i).value);
    LateRowsAreOwn(ready[i], env, i);
  }

  lemma LateRowsAreOwn(p: Plan, env: Env, i: nat)
    requires KeepsIdentity(env) && IsLate(p, env, i) && (env.calls(i).Executed? ==> FromPlan(env.calls(i).result, p))
    ensures FromPlan(env.judge(CallOf(p, env.calls(i)).result), p) && FromPlan(CrashRow(p, env, env.late(i).value), p)
  {
    RowsAreTheirPlans(p, env, i);
    var rows := RowsOf(p, env, i);
    assert FromPlan(rows[0], p) && FromPlan(rows[1], p);
  }

  /** When every clone gets one row and no clone crashes, the second of two failed rows stays. */
  lemma SecondRowIsWrong(plans: seq<Plan>, original: seq<Result>, retry: seq<Result>, chosen: seq<nat>, h: nat, a: nat)
    requires Identifiable(plans) && Distinct(chosen) && RowsOfChosen(retry, plans, chosen) && a < |plans| && h + 1 < |original|
    requires FromPlan(original[h], plans[a]) && FromPlan(original[h + 1], plans[a])
    requires IsFailed(original[h]) && IsRetryableFailed(original[h + 1]) && original[h + 1].status == EXEC_ERROR
    ensures !RoundEndsRight(original, retry, plans)
  {
    ChosenRowsHavePlans(retry, plans, chosen);
    OneRowOf(retry, plans, chosen, a);
    SecondFailureStays(original, retry, plans, a, h, h + 1);
    forall j | 0 <= j < |retry| ensures retry[j] != original[h + 1] {
      assert RowOfChosen(retry, plans, chosen, j);
    }
    assert !EndsRight(original[h + 1], Merged(original, retry)[h + 1], retry, plans[a]);
  }

  lemma CandidatesAreDistinct(results: seq<Result>, plans: seq<Plan>, lookup: map<Key, Entry>)
    ensures Distinct(Candidates(results, plans, lookup))
  {
    CollectedAreDistinct(AllWanted(results, lookup), AllKeys(plans));
  }

  lemma SomeRerunIsWrong(plans: seq<Plan>, lookup: map<Key, Entry>, gated: seq<Plan>, checked: bool, env: Env)
    returns (again: seq<Plan>, env': Env)
    requires Identifiable(plans) && IsTable(lookup, AllKeys(plans), |plans|) && SameIdentities(gated, plans)
    requires JudgesAsProgram(env) && CopiesIdentity(Ready(gated), env) && SomeFailsLate(Ready(gated), env)
    requires AllClonable(plans, Candidates(RunRows(gated, checked, env), plans, lookup))
    ensures Reruns(plans, Candidates(RunRows(gated, checked, env), plans, lookup), again, true, env')
    ensures !RoundEndsRight(RunRows(gated, checked, env), RunRows(again, true, env'), plans)
  {
    var original := RunRows(gated, checked, env);
    var chosen := Candidates(original, plans, lookup);
    var h, a := FailedTwice(plans, gated, checked, env);
    CandidatesAreDistinct(original, plans, lookup);
    again := AllClones(plans, chosen);
    env' := Smooth(again);
    SmoothReruns(plans, chosen);
    SmoothRerun(plans, chosen);
    SecondRowIsWrong(plans, original, RunRows(again, true, env'), chosen, h, a);
  }

  // ----- the theorem -----

  /** Whatever happens when the candidates are run again, every row ends right. */
  ghost predicate EveryRerunEndsRight(plans: seq<Plan>, original: seq<Result>, chosen: seq<nat>) {
    forall again, checked, env | Reruns(plans, chosen, again, checked, env) ::
      RoundEndsRight(original, RunRows(again, checked, env), plans)
  }

  /**
   Every row ends right in every rerun if and only if no executed plan whose result failed met an error after its row was
   appended, or there is no rerun because one of the candidates cannot be cloned.
   */
  lemma RetryRoundIff(plans: seq<Plan>, lookup: map<Key, Entry>, gated: seq<Plan>, checked: bool, env: Env)
    requires Identifiable(plans) && IsTable(lookup, AllKeys(plans), |plans|) && SameIdentities(gated, plans)
    requires JudgesAsProgram(env) && CopiesIdentity(Ready(gated), env)
    ensures var original := RunRows(gated, checked, env); var chosen := Candidates(original, plans, lookup);
      EveryRerunEndsRight(plans, original, chosen) <==> !SomeFailsLate(Ready(gated), env) || !AllClonable(plans, chosen)
  {
    var original := RunRows(gated, checked, env);
    var chosen := Candidates(original, plans, lookup);
    if !AllClonable(plans, chosen) {
      assert EveryRerunEndsRight(plans, original, chosen);
    } else if SomeFailsLate(Ready(gated), env) {
      var again, env' := SomeRerunIsWrong(plans, lookup, gated, checked, env);
    } else {
      ProgramKeepsIdentity(env);
      forall again, checked', env' | Reruns(plans, chosen, again, checked', env')
        ensures RoundEndsRight(original, RunRows(again, checked', env'), plans)
      {
        RetryRoundEndToEnd(plans, lookup, gated, checked, env, again, checked', env');
      }
    }
  }

  // ----- a case -----

  /** Two failed rows cannot both be replaced by one retry row. */
  lemma OneRetryForTwo(original: seq<Result>, retry: seq<Result>)
    requires |original| == 2 && |retry| == 1
    ensures Merged(original, retry)[0] == original[0] || Merged(original, retry)[1] == original[1]
  {
    MergeIsSafe(original, retry);
  }

  lemma KeptIsWrong(kept: Result, retry: seq<Result>, p: Plan)
    requires IsRetryableFailed(kept) && |retry| == 1 && !IsFailed(retry[0])
    ensures !EndsRight(kept, kept, retry, p)
  {
  }

  /** When a retryable result is followed by a late error, its plan has two failed rows, and a retry that succeeds replaces only one. */
  lemma LateErrorBreaksTheRound(p: Plan, r: Result, env: Env, retry: seq<Result>)
    requires p.protocol.SSH? && !Skipped(p.status) && env.stop.Never? && env.calls(0) == Executed(r)
    requires env.opening(0).None? && env.late(0) == Some("encoding error")
    requires JudgesAsProgram(env) && IsRetryableFailed(env.judge(r))
    requires |retry| == 1 && !IsFailed(retry[0])
    ensures var original := RunRows([p], true, env);
      |original| == 2 && exists i :: 0 <= i < 2 && !EndsRight(original[i], Merged(original, retry)[i], retry, p)
  {
    LateErrorDoublesTheRow(p, r, env);
    CrashIsRetryable(p, env, "encoding error");
    OneRetryForTwo([env.judge(r), CrashRow(p, env, "encoding error")], retry);
    KeptIsWrong(env.judge(r), retry, p);
    KeptIsWrong(CrashRow(p, env, "encoding error"), retry, p);
  }
}
