/** Whose row every row of a run is, and what it says, in the values that users see. */
module BatchRows {
  import opened Basics
  import opened Verdict
  import opened Preflight
  import opened Batch
  import opened RetryRound
  import opened BatchProofs

  /** Where a row comes from: the gate, the executor, a crash or late error, or a stop. */
  datatype Origin = ByGate(a: nat) | ByExecutor(i: nat) | ByCrash(i: nat, message: string) | ByStop(i: nat)

  /** The name under which a stop is reported. */
  function Name(reason: string): string {
    if reason == "route_change" then "ROUTE_GUARD_STOPPED"
    else if reason == "" || reason == "scheduler_stop" || reason == "user_stop" then "USER_STOPPED"
    else if reason == "user_interrupt" then "USER_INTERRUPT"
    else Upper(reason)
  }

  /** A plan that the gate skipped. */
  predicate GateSays(row: Result, p: Plan) {
    && SaysSkipped(p.status) && row.status == p.status && row.verdict == "SKIPPED"
    && row.reason == if p.skipReason == "" then "网络预检不通" else p.skipReason
  }

  /** A plan that was executed: its result, with a verdict. */
  predicate ExecutorSays(row: Result, p: Plan, call: Call) {
    if p.protocol.UNKNOWN? then
      row.status == "EXEC_FAILED" && row.reason == "Unsupported protocol: UNKNOWN" && row.verdict == "FAIL"
    else
      call.Executed? && var r := call.result;
      && row.status == r.status && row.reason == r.reason && row.identity == r.identity && row.ruleStatus == r.ruleStatus
      && row.artifactStatus == r.artifactStatus && row.checkpointStatus == r.checkpointStatus && row.readyStatus == r.readyStatus
      && (row.verdict == "PASS" ==> r.status == "EXEC_SUCCESS")
  }

  /** A plan whose executor raised, or whose line could not be printed after it was executed. */
  predicate CrashSays(row: Result, p: Plan, call: Call, late: Option<string>, message: string) {
    && row.status == "EXEC_ERROR" && row.verdict == "FAIL" && row.reason == "Sequential executor exception: " + message
    && if call.Executed? || p.protocol.UNKNOWN? then late == Some(message) else message == call.message
  }

  /** A plan that a stop left, one of `affected`. */
  predicate StopSays(row: Result, stop: Stop, affected: nat) {
    stop.At? && row.verdict == "SKIPPED" &&
    if stop.recorded then
      && row.status == (if stop.reason == "route_change" then "EXEC_SKIPPED_ROUTE_CHANGED" else "EXEC_SKIPPED_STOPPED")
      && row.reason == "顺序执行停止: " + Name(stop.reason) + " triggered_by="
         + (if stop.origin == "" then "unknown" else stop.origin) + " affectedPendingCount=" + Decimal(affected)
    else
      && row.status == "EXEC_SKIPPED_STOPPED"
      && row.reason == "顺序执行停止: " + "USER_STOPPED" + " triggered_by=" + "external_stop_event"
         + " affectedPendingCount=" + Decimal(affected)
  }

  /** The row says what its origin calls for. */
  predicate Says(o: Origin, row: Result, gated: seq<Plan>, env: Env) {
    var ready := Ready(gated);
    match o
    case ByGate(a) => a < |gated| && GateSays(row, gated[a])
    case ByExecutor(i) => i < Executions(ready, env) && ExecutorSays(row, ready[i], env.calls(i))
    case ByCrash(i, message) => i < Executions(ready, env) && CrashSays(row, ready[i], env.calls(i), env.late(i), message)
    case ByStop(i) => Executions(ready, env) <= i < |ready| && !Breaks(ready, env) && StopSays(row, env.stop, |ready| - Executions(ready, env))
  }

  /** The stop event is set when plan `i` checks it. */
  predicate StoppedBefore(stop: Stop, i: nat) {
    stop.At? && stop.tick <= 2 * i
  }

  /** A run goes as far as the first plan that finds the event set or cannot be announced, and breaks only in the latter case. */
  lemma RunEndsAt(ready: seq<Plan>, env: Env, m: nat)
    ensures Executions(ready, env) == m <==>
      && m <= |ready| && (forall i :: 0 <= i < m ==> !StoppedBefore(env.stop, i) && env.opening(i).None?)
      && (m < |ready| ==> StoppedBefore(env.stop, m) || env.opening(m).Some?)
    ensures Breaks(ready, env) <==>
      var m := Executions(ready, env); m < |ready| && env.opening(m).Some? && !StoppedBefore(env.stop, m)
    ensures Breaks(ready, env) ==> Error(ready, env) == env.opening(Executions(ready, env))
  {
    var k := Executions(ready, env);
    assert forall i: nat :: IsSet(env.stop, 2 * i) <==> StoppedBefore(env.stop, i);
    if m <= |ready| && (forall i :: 0 <= i < m ==> !StoppedBefore(env.stop, i) && env.opening(i).None?)
      && (m < |ready| ==> StoppedBefore(env.stop, m) || env.opening(m).Some?) {
      assert k <= m;
    }
  }

  // ----- one row -----

  lemma StatusesDiffer()
    ensures SaysSkipped("EXEC_SKIPPED_ROUTE_CHANGED") && SaysSkipped("EXEC_SKIPPED_STOPPED")
    ensures !SaysSkipped("EXEC_ERROR") && !SaysSkipped("EXEC_FAILED")
    ensures "EXEC_ERROR" != "PRECHECK_SKIPPED" && "EXEC_FAILED" != "PRECHECK_SKIPPED"
  {
    assert "EXEC_SKIPPED_ROUTE_CHANGED"[..12] == "EXEC_SKIPPED" && "EXEC_SKIPPED_STOPPED"[..12] == "EXEC_SKIPPED";
    assert "EXEC_ERROR"[0] != "PRECHECK_SKIPPED"[0] && "EXEC_FAILED"[0] != "PRECHECK_SKIPPED"[0];
  }

  /** A result with nothing but a status: skipped if the status says so, failed if it is an error or a failure. */
  lemma BareVerdict(p: Plan, status: string, reason: string)
    ensures SaysSkipped(status) ==> Judged(ResultFor(p, status, reason)).verdict == "SKIPPED"
    ensures status == "EXEC_ERROR" || status == "EXEC_FAILED" ==> Judged(ResultFor(p, status, reason)).verdict == "FAIL"
  {
    var r := ResultFor(p, status, reason);
    ResultForIs(p, status, reason);
    VerdictIs(r);
    VerdictRanks(r);
    assert "ARTIFACT_PENDING" != "ARTIFACT_FAILED" by { assert "ARTIFACT_PENDING"[9] != "ARTIFACT_FAILED"[9]; }
    assert "CHECK_DISABLED" != "CHECK_FAIL" by { assert "CHECK_DISABLED"[6] != "CHECK_FAIL"[6]; }
  }

  lemma GateRowSays(p: Plan, env: Env)
    requires JudgesAsProgram(env) && Skipped(p.status)
    ensures GateSays(SkipRow(p, env), p)
  {
    Words();
    var reason := if p.skipReason != "" then p.skipReason else SKIP_REASON;
    assert env.judge(ResultFor(p, p.status, reason)) == Judged(ResultFor(p, p.status, reason));
    BareVerdict(p, p.status, reason);
  }

  lemma ExecutorRowSays(p: Plan, env: Env, i: nat)
    requires JudgesAsProgram(env) && CallOf(p, env.calls(i)).Executed?
    ensures ExecutorSays(env.judge(CallOf(p, env.calls(i)).result), p, env.calls(i))
  {
    var r := CallOf(p, env.calls(i)).result;
    assert env.judge(r) == Judged(r);
    VerdictIs(r);
    if p.protocol.UNKNOWN? {
      BareVerdict(p, "EXEC_FAILED", UNSUPPORTED);
    }
  }

  lemma CrashRowSays(p: Plan, env: Env, i: nat, message: string)
    requires JudgesAsProgram(env)
    requires if CallOf(p, env.calls(i)).Executed? then env.late(i) == Some(message) else message == env.calls(i).message
    ensures CrashSays(CrashRow(p, env, message), p, env.calls(i), env.late(i), message)
  {
    assert env.judge(ResultFor(p, EXEC_ERROR, CRASHED + message)) == Judged(ResultFor(p, EXEC_ERROR, CRASHED + message));
    BareVerdict(p, "EXEC_ERROR", CRASHED + message);
  }

  lemma NamesAre(reason: string)
    ensures StopLabel(if reason != "" then reason else DEFAULT_REASON) == Name(reason)
  {
    assert "route_change"[0] != "scheduler_stop"[0];
  }

  lemma ReasonsAre(stop: Stop)
    requires stop.At?
    ensures stop.recorded ==>
      StopLabel(StopReason(stop)) == Name(stop.reason) && StopBy(stop) == (if stop.origin == "" then "unknown" else stop.origin)
    ensures StopReason(stop) == if stop.recorded && stop.reason != "" then stop.reason else "scheduler_stop"
    ensures !stop.recorded ==> StopLabel(StopReason(stop)) == "USER_STOPPED" && StopBy(stop) == "external_stop_event"
    ensures StoppedStatus(stop) ==
      if stop.recorded && stop.reason == "route_change" then "EXEC_SKIPPED_ROUTE_CHANGED" else "EXEC_SKIPPED_STOPPED"
  {
    NamesAre(stop.reason);
    NamesAre("");
    assert "route_change"[0] != "scheduler_stop"[0] && "route_change" != "";
  }

  lemma StopRowSays(p: Plan, env: Env, affected: nat)
    requires JudgesAsProgram(env) && env.stop.At?
    ensures StopSays(StoppedRow(p, env, affected), env.stop, affected)
  {
    var status, text := StoppedStatus(env.stop), StopText(env.stop, affected);
    ReasonsAre(env.stop);
    StatusesDiffer();
    assert env.judge(ResultFor(p, status, text)) == Judged(ResultFor(p, status, text));
    BareVerdict(p, status, text);
  }

  // ----- every row -----

  lemma ExecutedRowSays(ready: seq<Plan>, env: Env, i: nat, x: nat) returns (o: Origin)
    requires JudgesAsProgram(env) && i < |ready| && x < |RowsOf(ready[i], env, i)|
    ensures o.ByExecutor? || o.ByCrash?
    ensures o.i == i
    ensures o.ByExecutor? ==> ExecutorSays(RowsOf(ready[i], env, i)[x], ready[i], env.calls(i))
    ensures o.ByCrash? ==> CrashSays(RowsOf(ready[i], env, i)[x], ready[i], env.calls(i), env.late(i), o.message)
  {
    if x == 0 && CallOf(ready[i], env.calls(i)).Executed? {
      o := ByExecutor(i);
      ExecutorRowSays(ready[i], env, i);
    } else if x == 0 {
      o := ByCrash(i, env.calls(i).message);
      CrashRowSays(ready[i], env, i, env.calls(i).message);
    } else {
      o := ByCrash(i, env.late(i).value);
      CrashRowSays(ready[i], env, i, env.late(i).value);
    }
  }

  lemma SequentialRowSays(gated: seq<Plan>, env: Env, j: nat) returns (o: Origin)
    requires JudgesAsProgram(env) && j < |SequentialRows(Ready(gated), env)|
    ensures !o.ByGate? && Says(o, SequentialRows(Ready(gated), env)[j], gated, env)
    ensures o.ByStop? <==> j >= |ExecutedRows(Ready(gated), env, Executions(Ready(gated), env))|
  {
    var first := |ExecutedRows(Ready(gated), env, Executions(Ready(gated), env))|;
    if j < first {
      o := EarlyRowSays(Ready(gated), env, j);
    } else {
      o := ByStop(Executions(Ready(gated), env) + (j - first));
      LateRowSays(Ready(gated), env, j);
    }
  }

  lemma EarlyRowSays(ready: seq<Plan>, env: Env, j: nat) returns (o: Origin)
    requires JudgesAsProgram(env) && j < |ExecutedRows(ready, env, Executions(ready, env))|
    ensures j < |SequentialRows(ready, env)| && (o.ByExecutor? || o.ByCrash?) && o.i < Executions(ready, env)
    ensures o.ByExecutor? ==> ExecutorSays(SequentialRows(ready, env)[j], ready[o.i], env.calls(o.i))
    ensures o.ByCrash? ==> CrashSays(SequentialRows(ready, env)[j], ready[o.i], env.calls(o.i), env.late(o.i), o.message)
  {
    SequentialSplit(ready, env, j);
    var b, x := ExecutedBlock(ready, env, Executions(ready, env), j);
    o := ExecutedRowSays(ready, env, b, x);
  }

  lemma LateRowSays(ready: seq<Plan>, env: Env, j: nat)
    requires JudgesAsProgram(env)
    requires |ExecutedRows(ready, env, Executions(ready, env))| <= j < |SequentialRows(ready, env)|
    ensures !Breaks(ready, env) && Executions(ready, env) + (j - |ExecutedRows(ready, env, Executions(ready, env))|) < |ready|
    ensures StopSays(SequentialRows(ready, env)[j], env.stop, |ready| - Executions(ready, env))
  {
    var m := Executions(ready, env);
    var i := StoppedRowOfPlan(ready, env, j);
    StopRowSays(ready[i], env, |ready| - m);
    SameStop(StoppedRow(ready[i], env, |ready| - m), SequentialRows(ready, env)[j], env.stop, |ready| - m);
  }

  lemma StoppedRowOfPlan(ready: seq<Plan>, env: Env, j: nat) returns (i: nat)
    requires |ExecutedRows(ready, env, Executions(ready, env))| <= j < |SequentialRows(ready, env)|
    ensures !Breaks(ready, env) && env.stop.At? && i < |ready|
    ensures i == Executions(ready, env) + (j - |ExecutedRows(ready, env, Executions(ready, env))|)
    ensures SequentialRows(ready, env)[j] == StoppedRow(ready[i], env, |ready| - Executions(ready, env))
  {
    var n;
    n, i := LateIndex(ready, env, j);
    StopLeavesRows(ready, env);
    assert n == |ready| - Executions(ready, env);
  }

  /** Among the last `n` plans, the one whose stopped row this is. */
  lemma LateIndex(ready: seq<Plan>, env: Env, j: nat) returns (n: nat, i: nat)
    requires |ExecutedRows(ready, env, Executions(ready, env))| <= j < |SequentialRows(ready, env)|
    ensures n == Affected(ready, env) && n > 0 && i < |ready|
    ensures i + n == |ready| + (j - |ExecutedRows(ready, env, Executions(ready, env))|)
    ensures SequentialRows(ready, env)[j] == StoppedRow(ready[i], env, n)
  {
    SequentialSplit(ready, env, j);
    n := Affected(ready, env);
    var k := j - |ExecutedRows(ready, env, Executions(ready, env))|;
    i := |ready| - n + k;
    StoppedRowIs(ready, env, |ready| - n, k);
  }

  lemma StopLeavesRows(ready: seq<Plan>, env: Env)
    requires Affected(ready, env) > 0
    ensures !Breaks(ready, env) && env.stop.At? && Affected(ready, env) == |ready| - Executions(ready, env)
  {
  }

  lemma StoppedRowIs(ready: seq<Plan>, env: Env, m: nat, k: nat)
    requires m <= |ready| && k < |ready| - m
    ensures StoppedRows(ready, env, m)[k] == StoppedRow(ready[m + k], env, |ready| - m)
  {
  }

  lemma SameStop(a: Result, b: Result, stop: Stop, affected: nat)
    requires a == b && StopSays(a, stop, affected)
    ensures StopSays(b, stop, affected)
  {
  }

  /**
   Every row of every run says what its origin calls for: the rows of the gate come first, then those of executed plans
   with their crashes and late errors, and the stopped ones last. With `Says`, in the words users see.
   */
  lemma EveryRowSays(gated: seq<Plan>, checked: bool, env: Env, j: nat) returns (o: Origin)
    requires JudgesAsProgram(env) && j < |RunRows(gated, checked, env)|
    ensures Says(o, RunRows(gated, checked, env)[j], gated, env)
    ensures o.ByGate? <==> j < |GateRows(gated, checked, env)|
    ensures o.ByGate? ==> checked
  {
    RunSplit(gated, checked, env, j);
    var first := |GateRows(gated, checked, env)|;
    if j < first {
      PlacesAre(gated, |gated|, true);
      var a := Places(gated, |gated|, true)[j];
      assert a in Places(gated, |gated|, true);
      o := ByGate(a);
      GateRowSays(gated[a], env);
    } else {
      o := SequentialRowSays(gated, env, j - first);
    }
  }

  /** A row passes only for a plan that was executed and succeeded. */
  lemma OnlySuccessPasses(gated: seq<Plan>, checked: bool, env: Env, j: nat) returns (i: nat)
    requires JudgesAsProgram(env) && j < |RunRows(gated, checked, env)| && RunRows(gated, checked, env)[j].verdict == "PASS"
    ensures i < Executions(Ready(gated), env) && !Ready(gated)[i].protocol.UNKNOWN?
    ensures env.calls(i).Executed? && env.calls(i).result.status == "EXEC_SUCCESS"
  {
    var o := EveryRowSays(gated, checked, env, j);
    assert "PASS"[0] == 'P' && "FAIL"[0] == 'F' && "SKIPPED"[0] == 'S';
    i := o.i;
  }

  /** How the plans of a run end: as their result says, as errors, as stopped, or, when the run breaks, running or untouched. */
  lemma FinalStatusIs(ready: seq<Plan>, env: Env, i: nat)
    requires i < |ready|
    ensures |FinalStatuses(ready, env)| == |ready|
    ensures var m, status := Executions(ready, env), FinalStatuses(ready, env)[i];
      if i < m then
        if env.late(i).Some? || (env.calls(i).Crashed? && !ready[i].protocol.UNKNOWN?) then status == "EXEC_ERROR"
        else if ready[i].protocol.UNKNOWN? then status == "EXEC_FAILED"
        else if env.calls(i).result.status == "EXEC_SUCCESS" then status == "SUCCESS"
        else status == env.calls(i).result.status
      else if Breaks(ready, env) then status == if i == m then "RUNNING" else ready[i].status
      else status == if env.stop.At? && env.stop.recorded && env.stop.reason == "route_change" then "EXEC_SKIPPED_ROUTE_CHANGED"
                     else "EXEC_SKIPPED_STOPPED"
  {
    var m := Executions(ready, env);
    ExecutedStatusesAre(ready, env, m);
    if i < m {
      FinalStatusOf(ready[i], env, i);
    } else if !Breaks(ready, env) {
      ReasonsAre(env.stop);
    }
  }

  lemma {:induction false} ExecutedStatusesAre(ready: seq<Plan>, env: Env, m: nat)
    requires m <= |ready|
    ensures |ExecutedStatuses(ready, env, m)| == m
    ensures forall i :: 0 <= i < m ==> ExecutedStatuses(ready, env, m)[i] == FinalStatus(ready[i], env, i)
  {
    if m > 0 {
      ExecutedStatusesAre(ready, env, m - 1);
    }
  }

  lemma FinalStatusOf(p: Plan, env: Env, i: nat)
    ensures FinalStatus(p, env, i) ==
      if env.calls(i).Crashed? && !p.protocol.UNKNOWN? then "EXEC_ERROR"
      else if env.late(i).Some? then "EXEC_ERROR"
      else if p.protocol.UNKNOWN? then "EXEC_FAILED"
      else if env.calls(i).result.status == "EXEC_SUCCESS" then "SUCCESS"
      else env.calls(i).result.status
  {
    assert "EXEC_FAILED"[5] != "EXEC_SUCCESS"[5];
  }
}
