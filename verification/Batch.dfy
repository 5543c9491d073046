/** A sequential batch: preflight skips first, then one plan after the other until the end or a stop. */
module Batch {
  import opened Basics
  import opened Verdict
  import opened Preflight

  /** What executing one plan, retries included, comes to. */
  datatype Call = Executed(result: Result) | Crashed(message: string)

  /**
   The stop event is set at some tick, or never. Plan `i` checks it at tick 2i and starts at tick 2i+1. `origin` and `reason`
   are what `_record_stop` was given; an event set from elsewhere leaves no record.
   */
  datatype Stop = Never | At(tick: nat, recorded: bool, reason: string, origin: string)

  /**
   `judge` gives a result its verdict, and is `Judged` of the verdict module in every run; the layout of the rows does
   not depend on it. `late` is an error raised after the row of a plan was appended, while its line is printed; `opening`
   is one raised while the line is printed that announces the plan, which ends the run.
   */
  datatype Env = Env(
    judge: Result -> Result, calls: nat -> Call, late: nat -> Option<string>, opening: nat -> Option<string>, stop: Stop)

  predicate IsSet(stop: Stop, tick: nat) {
    stop.At? && stop.tick <= tick
  }

  const SKIPPED_ROUTE_CHANGED := "EXEC_SKIPPED_ROUTE_CHANGED"
  const SKIPPED_STOPPED := "EXEC_SKIPPED_STOPPED"
  const SUCCESS := "SUCCESS"
  const RUNNING := "RUNNING"
  const CRASHED := "Sequential executor exception: "
  const UNSUPPORTED := "Unsupported protocol: UNKNOWN"
  const SKIP_REASON := "网络预检不通"
  const STOPPED := "顺序执行停止: "
  const TRIGGERED_BY := " triggered_by="
  const AFFECTED := " affectedPendingCount="
  const DEFAULT_REASON := "scheduler_stop"
  const ROUTE_CHANGE := "route_change"
  const USER_STOP := "user_stop"
  const INTERRUPTED := "user_interrupt"
  const ROUTE_GUARD_STOPPED := "ROUTE_GUARD_STOPPED"
  const USER_STOPPED := "USER_STOPPED"
  const USER_INTERRUPT := "USER_INTERRUPT"
  const EXTERNAL := "external_stop_event"
  const NOBODY := "unknown"

  function StopReason(stop: Stop): string {
    if stop.At? && stop.recorded && stop.reason != "" then stop.reason else DEFAULT_REASON
  }

  function StopBy(stop: Stop): string {
    if stop.At? && stop.recorded then (if stop.origin != "" then stop.origin else NOBODY) else EXTERNAL
  }

  /** The first plan that finds the stop event set or that cannot be announced, or the number of plans. */
  function EndIndex(i: nat, n: nat, env: Env): (m: nat)
    requires i <= n
    ensures i <= m <= n
    ensures forall j :: i <= j < m ==> !IsSet(env.stop, 2 * j) && env.opening(j).None?
    ensures m < n ==> IsSet(env.stop, 2 * m) || env.opening(m).Some?
    decreases n - i
  {
    if i == n || IsSet(env.stop, 2 * i) || env.opening(i).Some? then i else EndIndex(i + 1, n, env)
  }

  /** How many of the plans are executed. */
  function Executions(plans: seq<Plan>, env: Env): (m: nat)
    ensures m <= |plans|
  {
    EndIndex(0, |plans|, env)
  }

  /** The run ends with an error, because a plan cannot be announced. */
  predicate Breaks(plans: seq<Plan>, env: Env) {
    var m := Executions(plans, env);
    m < |plans| && !IsSet(env.stop, 2 * m)
  }

  /** The plans that a stop leaves. */
  function Affected(plans: seq<Plan>, env: Env): nat {
    if Breaks(plans, env) then 0 else |plans| - Executions(plans, env)
  }

  function StoppedStatus(stop: Stop): string {
    if StopReason(stop) == ROUTE_CHANGE then SKIPPED_ROUTE_CHANGED else SKIPPED_STOPPED
  }

  /** How a stop is named in the rows it leaves. */
  function StopLabel(reason: string): string {
    if reason == ROUTE_CHANGE then ROUTE_GUARD_STOPPED
    else if reason == DEFAULT_REASON || reason == USER_STOP then USER_STOPPED
    else if reason == INTERRUPTED then USER_INTERRUPT
    else Upper(reason)
  }

  function StopText(stop: Stop, affected: nat): string {
    STOPPED + StopLabel(StopReason(stop)) + TRIGGERED_BY + StopBy(stop) + AFFECTED + Decimal(affected)
  }

  function StoppedRow(p: Plan, env: Env, affected: nat): Result {
    env.judge(ResultFor(p, StoppedStatus(env.stop), StopText(env.stop, affected)))
  }

  function CrashRow(p: Plan, env: Env, message: string): Result {
    env.judge(ResultFor(p, EXEC_ERROR, CRASHED + message))
  }

  function CallOf(p: Plan, call: Call): Call {
    if p.protocol.UNKNOWN? then Executed(ResultFor(p, EXEC_FAILED, UNSUPPORTED)) else call
  }

  /** The rows one executed plan adds: one, or two when printing fails after the first was appended. */
  function RowsOf(p: Plan, env: Env, i: nat): seq<Result> {
    match CallOf(p, env.calls(i))
    case Crashed(message) => [CrashRow(p, env, message)]
    case Executed(result) => [env.judge(result)] + if env.late(i).Some? then [CrashRow(p, env, env.late(i).value)] else []
  }

  function ExecutedRows(plans: seq<Plan>, env: Env, m: nat): seq<Result>
    requires m <= |plans|
  {
    if m == 0 then [] else ExecutedRows(plans, env, m - 1) + RowsOf(plans[m - 1], env, m - 1)
  }

  lemma ExecutedRowsNext(plans: seq<Plan>, env: Env, m: nat, before: seq<Result>)
    requires m < |plans|
    ensures before + ExecutedRows(plans, env, m) + RowsOf(plans[m], env, m) == before + ExecutedRows(plans, env, m + 1)
  {
    var rows := ExecutedRows(plans, env, m);
    assert before + rows + RowsOf(plans[m], env, m) == before + (rows + RowsOf(plans[m], env, m));
  }

  function StoppedRows(plans: seq<Plan>, env: Env, m: nat): seq<Result>
    requires m <= |plans|
  {
    seq(|plans| - m, j requires 0 <= j < |plans| - m => StoppedRow(plans[m + j], env, |plans| - m))
  }

  /** All rows of a sequential run: the executed plans, then a stopped row for every plan from the stop on, if there is one. */
  function SequentialRows(plans: seq<Plan>, env: Env): seq<Result> {
    ExecutedRows(plans, env, Executions(plans, env)) + StoppedRows(plans, env, |plans| - Affected(plans, env))
  }

  /** The places of the plans below `n` that are, or are not, marked as skipped, in order. */
  function Places(plans: seq<Plan>, n: nat, skipped: bool): (places: seq<nat>)
    requires n <= |plans|
    ensures forall a :: a in places ==> a < n
  {
    if n == 0 then []
    else Places(plans, n - 1, skipped) + if Skipped(plans[n - 1].status) == skipped then [n - 1] else []
  }

  function Select(plans: seq<Plan>, places: seq<nat>): seq<Plan>
    requires forall a :: a in places ==> a < |plans|
  {
    seq(|places|, i requires 0 <= i < |places| => assert places[i] in places; plans[places[i]])
  }

  function Ready(plans: seq<Plan>): seq<Plan> {
    Select(plans, Places(plans, |plans|, false))
  }

  function SkipRow(p: Plan, env: Env): Result {
    env.judge(ResultFor(p, p.status, if p.skipReason != "" then p.skipReason else SKIP_REASON))
  }

  /** The rows of the skipped plans among the first `n`. */
  function SkipRowsUpTo(plans: seq<Plan>, env: Env, n: nat): seq<Result>
    requires n <= |plans|
  {
    var skips := Select(plans, Places(plans, n, true));
    seq(|skips|, i requires 0 <= i < |skips| => SkipRow(skips[i], env))
  }

  function SkipRows(plans: seq<Plan>, env: Env): seq<Result> {
    SkipRowsUpTo(plans, env, |plans|)
  }

  lemma SkipRowsNext(plans: seq<Plan>, env: Env, n: nat)
    requires n < |plans|
    ensures SkipRowsUpTo(plans, env, n + 1) ==
      SkipRowsUpTo(plans, env, n) + if Skipped(plans[n].status) then [SkipRow(plans[n], env)] else []
  {
  }

  /** The rows of the gate, if there was one. */
  function GateRows(gated: seq<Plan>, checked: bool, env: Env): seq<Result> {
    if checked then SkipRows(gated, env) else []
  }

  /** The whole result list: the rows of the gate, then those of the ready plans. */
  function RunRows(gated: seq<Plan>, checked: bool, env: Env): seq<Result> {
    GateRows(gated, checked, env) + SequentialRows(Ready(gated), env)
  }

  /** The last rows are the stopped rows of the last `affected` plans, in order. */
  ghost predicate EndsStopped(rows: seq<Result>, ready: seq<Plan>, env: Env, affected: nat) {
    affected <= |rows| && affected <= |ready| && rows[|rows| - affected..] == StoppedRows(ready, env, |ready| - affected)
  }

  lemma StoppedRowsComeLast(gated: seq<Plan>, checked: bool, env: Env, affected: nat)
    requires affected == Affected(Ready(gated), env)
    ensures EndsStopped(RunRows(gated, checked, env), Ready(gated), env, affected)
  {
    var ready := Ready(gated);
    SuffixOf(GateRows(gated, checked, env), ExecutedRows(ready, env, Executions(ready, env)),
             StoppedRows(ready, env, |ready| - affected));
  }

  lemma SuffixOf<T>(a: seq<T>, b: seq<T>, c: seq<T>)
    ensures (a + (b + c))[|a + (b + c)| - |c|..] == c
  {
  }

  lemma EmptyFirst<T>(s: seq<T>)
    ensures [] + s == s
  {
  }

  /** The plans as the connectivity check leaves them, when there is one. */
  function AllGated(plans: seq<Plan>, answers: Option<map<string, Row>>, reasons: Plan -> string): seq<Plan> {
    if answers.None? then plans
    else seq(|plans|, i requires 0 <= i < |plans| => Gated(plans[i], answers.value, reasons(plans[i])))
  }

  /** The error a run ends with. */
  function Error(plans: seq<Plan>, env: Env): Option<string> {
    if Breaks(plans, env) then env.opening(Executions(plans, env)) else None
  }

  /** What the loop finds at plan `i` when it has come there. */
  lemma EndsOrGoesOn(plans: seq<Plan>, env: Env, i: nat)
    requires i < |plans| && Executions(plans, env) == EndIndex(i, |plans|, env)
    ensures IsSet(env.stop, 2 * i) ==> Executions(plans, env) == i && Error(plans, env) == None
    ensures !IsSet(env.stop, 2 * i) && env.opening(i).Some? ==> Executions(plans, env) == i && Error(plans, env) == env.opening(i)
    ensures !IsSet(env.stop, 2 * i) && env.opening(i).None? ==> Executions(plans, env) == EndIndex(i + 1, |plans|, env)
  {
  }

  class App {
    var results: seq<Result>
    var stopReason: string
    var stopTriggeredBy: string
    var stopped: bool
    var affectedPendingCount: nat

    constructor ()
      ensures results == [] && !stopped && affectedPendingCount == 0
    {
      results, stopReason, stopTriggeredBy, stopped, affectedPendingCount := [], DEFAULT_REASON, "", false, 0;
    }

    /** The first record of a stop wins. */
    method RecordStop(reason: string, origin: string)
      modifies this
      ensures stopped && results == old(results) && affectedPendingCount == old(affectedPendingCount)
      ensures old(stopped) ==> stopReason == old(stopReason) && stopTriggeredBy == old(stopTriggeredBy)
      ensures !old(stopped) ==>
        && stopReason == (if reason != "" then reason else if old(stopReason) != "" then old(stopReason) else DEFAULT_REASON)
        && stopTriggeredBy == if origin != "" then origin else NOBODY
    {
      if !stopped {
        stopReason := if reason != "" then reason else if stopReason != "" then stopReason else DEFAULT_REASON;
        stopTriggeredBy := if origin != "" then origin else NOBODY;
        stopped := true;
      }
    }

    /** The record a stop leaves when its event is set, just before the loop sees it. */
    method NoticeStop(stop: Stop)
      requires stop.At? && !stopped && stopReason == DEFAULT_REASON
      modifies this
      ensures stopped && stopReason == StopReason(stop) && stopTriggeredBy == StopBy(stop)
      ensures results == old(results) && affectedPendingCount == old(affectedPendingCount)
    {
      if stop.recorded {
        RecordStop(stop.reason, stop.origin);
      } else {
        RecordStop(stopReason, EXTERNAL);
      }
    }

    /**
     A sequential run of given plans. `answers` are the rows of the connectivity check, when it is enabled; `raised` is the
     error the run ends with.
     */
    method RunWithPlans(plans: seq<Plan>, answers: Option<map<string, Row>>, reasons: Plan -> string, env: Env)
      returns (statuses: seq<string>, raised: Option<string>, ghost gated: seq<Plan>)
      modifies this
      ensures gated == AllGated(plans, answers, reasons)
      ensures results == RunRows(gated, answers.Some?, env)
      ensures statuses == FinalStatuses(Ready(gated), env)
      ensures affectedPendingCount == Affected(Ready(gated), env) && raised == Error(Ready(gated), env)
      ensures EndsStopped(results, Ready(gated), env, affectedPendingCount)
    {
      results, stopReason, stopTriggeredBy, stopped, affectedPendingCount := [], DEFAULT_REASON, "", false, 0;
      var now := Gate(plans, answers, reasons, env);
      gated := now;
      assert results == GateRows(gated, answers.Some?, env);
      var ready := FilterReady(now);
      statuses, raised := ExecuteSequential(ready, env);
      StoppedRowsComeLast(gated, answers.Some?, env, affectedPendingCount);
    }

    /** The gate of a run: plans whose endpoint did not answer are marked and get their rows at once. */
    method Gate(plans: seq<Plan>, answers: Option<map<string, Row>>, reasons: Plan -> string, env: Env) returns (gated: seq<Plan>)
      modifies this`results
      ensures gated == AllGated(plans, answers, reasons)
      ensures results == old(results) + GateRows(gated, answers.Some?, env)
    {
      gated := plans;
      if answers.Some? {
        gated := ApplyPreflight(plans, answers.value, reasons);
        AppendSkips(gated, env);
      }
    }

    method AppendSkips(plans: seq<Plan>, env: Env)
      modifies this`results
      ensures results == old(results) + SkipRows(plans, env)
    {
      var i := 0;
      ghost var before := results;
      while i < |plans|
        invariant i <= |plans| && results == before + SkipRowsUpTo(plans, env, i)
      {
        SkipRowsNext(plans, env, i);
        if Skipped(plans[i].status) {
          results := results + [SkipRow(plans[i], env)];
        }
        i := i + 1;
      }
    }

    method FilterReady(plans: seq<Plan>) returns (ready: seq<Plan>)
      ensures ready == Ready(plans)
    {
      ready := [];
      var i := 0;
      while i < |plans|
        invariant i <= |plans| && ready == Select(plans, Places(plans, i, false))
      {
        if !Skipped(plans[i].status) {
          ready := ready + [plans[i]];
        }
        i := i + 1;
      }
    }

    method RunPlan(p: Plan, env: Env, i: nat) returns (status: string)
      modifies this`results
      ensures results == old(results) + RowsOf(p, env, i) && status == FinalStatus(p, env, i)
    {
      match CallOf(p, env.calls(i)) {
        case Crashed(message) =>
          results := results + [CrashRow(p, env, message)];
          status := EXEC_ERROR;
        case Executed(result) =>
          results := results + [env.judge(result)];
          status := if result.status == EXEC_SUCCESS then SUCCESS else result.status;
          if env.late(i).Some? {
            status := EXEC_ERROR;
            results := results + [CrashRow(p, env, env.late(i).value)];
          }
      }
    }

    /** Executes plans until one finds the stop event set or cannot be announced, and returns its place. */
    method ExecuteUntilStop(plans: seq<Plan>, env: Env) returns (i: nat, statuses: seq<string>, raised: Option<string>)
      modifies this`results
      ensures i == Executions(plans, env) && raised == Error(plans, env)
      ensures results == old(results) + ExecutedRows(plans, env, i) && statuses == ExecutedStatuses(plans, env, i)
    {
      statuses, raised := [], None;
      i := 0;
      ghost var before := results;
      while i < |plans|
        invariant i <= |plans| && Executions(plans, env) == EndIndex(i, |plans|, env) && raised.None?
        invariant results == before + ExecutedRows(plans, env, i)
        invariant statuses == ExecutedStatuses(plans, env, i)
      {
        EndsOrGoesOn(plans, env, i);
        if IsSet(env.stop, 2 * i) {
          break;
        }
        if env.opening(i).Some? {
          raised := env.opening(i);
          break;
        }
        ExecutedRowsNext(plans, env, i, before);
        var status := RunPlan(plans[i], env, i);
        statuses := statuses + [status];
        i := i + 1;
      }
    }

    method ExecuteSequential(plans: seq<Plan>, env: Env) returns (statuses: seq<string>, raised: Option<string>)
      requires !stopped && stopReason == DEFAULT_REASON && affectedPendingCount == 0
      modifies this
      ensures results == old(results) + SequentialRows(plans, env) && statuses == FinalStatuses(plans, env)
      ensures raised == Error(plans, env)
      ensures affectedPendingCount == Affected(plans, env) && stopped == (Affected(plans, env) > 0)
      ensures stopped ==> stopReason == StopReason(env.stop) && stopTriggeredBy == StopBy(env.stop)
    {
      var i;
      i, statuses, raised := ExecuteUntilStop(plans, env);
      if raised.Some? {
        statuses := statuses + [RUNNING] + seq(|plans| - i - 1, j requires 0 <= j < |plans| - i - 1 => plans[i + 1 + j].status);
      } else if i < |plans| {
        StopFrom(plans, env, i);
        statuses := statuses + seq(|plans| - i, _ => StoppedStatus(env.stop));
      }
    }

    method StopFrom(plans: seq<Plan>, env: Env, i: nat)
      requires i <= |plans| && env.stop.At? && !stopped && stopReason == DEFAULT_REASON
      modifies this
      ensures results == old(results) + StoppedRows(plans, env, i)
      ensures affectedPendingCount == |plans| - i && stopped
      ensures stopReason == StopReason(env.stop) && stopTriggeredBy == StopBy(env.stop)
    {
      affectedPendingCount := |plans| - i;
      NoticeStop(env.stop);
      var affected := affectedPendingCount;
      AppendStopped(plans, p => StoppedRow(p, env, affected), i);
      assert StoppedRows(plans, env, i) ==
        seq(|plans| - i, j requires 0 <= j < |plans| - i => StoppedRow(plans[i + j], env, affected));
    }

    method AppendStopped(plans: seq<Plan>, row: Plan -> Result, from: nat)
      requires from <= |plans|
      modifies this`results
      ensures results == old(results) + seq(|plans| - from, j requires 0 <= j < |plans| - from => row(plans[from + j]))
    {
      var i := from;
      ghost var before := results;
      while i < |plans|
        invariant from <= i <= |plans|
        invariant results == before + seq(i - from, j requires 0 <= j < i - from => row(plans[from + j]))
      {
        results := results + [row(plans[i])];
        i := i + 1;
      }
    }
  }

  function FinalStatus(p: Plan, env: Env, i: nat): string {
    match CallOf(p, env.calls(i))
    case Crashed(_) => EXEC_ERROR
    case Executed(r) => if env.late(i).Some? then EXEC_ERROR else if r.status == EXEC_SUCCESS then SUCCESS else r.status
  }

  function ExecutedStatuses(plans: seq<Plan>, env: Env, m: nat): seq<string>
    requires m <= |plans|
  {
    if m == 0 then [] else ExecutedStatuses(plans, env, m - 1) + [FinalStatus(plans[m - 1], env, m - 1)]
  }

  /** The statuses the plans end with; a plan that could not be announced is left running, and those behind it as they were. */
  function FinalStatuses(plans: seq<Plan>, env: Env): seq<string> {
    var m := Executions(plans, env);
    ExecutedStatuses(plans, env, m) +
    if Breaks(plans, env) then [RUNNING] + seq(|plans| - m - 1, j requires 0 <= j < |plans| - m - 1 => plans[m + 1 + j].status)
    else seq(|plans| - m, _ => StoppedStatus(env.stop))
  }
}
