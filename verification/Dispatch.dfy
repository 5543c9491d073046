/** The dispatch service itself: one caller at a time submits jobs and drains the pending queue. */
module Dispatch {
  import opened Basics
  import opened JobStore
  import opened LockManager
  import P = DispatchProtocol

  /** What a runner returns; of the steps only their statuses matter. */
  datatype JobResult = JobResult(
    status: string, durationMs: int, error: Option<JobError>, steps: seq<string>, artifacts: seq<string>)

  /** What the runner did: returned a result, raised, or returned an object on which reading a field raises. */
  datatype RunnerResult = Reported(result: JobResult) | Raised(message: string) | Broken(message: string)

  /** What the finishing callback did; `Failing` stands for an error in the handling itself, outside its own try block. */
  datatype CallbackResult = Sent | NotSent | CallbackRaised(message: string) | Failing(message: string)

  /** Everything outside the service that one execution meets. */
  datatype Env = Env(
    runner: RunnerResult, callback: CallbackResult, acquiredAt: int, startedAt: int, finishedAt: int, calledBackAt: int,
    http: bool)

  /** The state the service owns or shares; `ran` records the runner calls in order. */
  datatype System = System(store: Store, locks: Table, queue: seq<string>, ran: seq<string>)

  const RUNNER_CRASH := "RUNNER_CRASH"
  const EXEC := "EXEC_"
  const NON_2XX := "Callback returned non-2xx or exception (transport="

  /** A runner that raises counts as one that failed. */
  function ResultOf(r: RunnerResult): JobResult
    requires !r.Broken?
  {
    if r.Reported? then r.result
    else JobResult(FAILED, 0, Some(JobError(RUNNER_CRASH, P.Shortened(r.message), false, P.SYSTEM)), [], [])
  }

  function CountOf(steps: seq<string>, status: string): nat {
    if steps == [] then 0 else CountOf(steps[..|steps| - 1], status) + if steps[|steps| - 1] == status then 1 else 0
  }

  function SummaryOf(r: JobResult): Summary {
    Summary(EXEC + r.status, |r.steps|, CountOf(r.steps, SUCCEEDED), CountOf(r.steps, FAILED))
  }

  /** What is recorded of the run. */
  function RunnerReport(r: RunnerResult): Report
    requires !r.Broken?
  {
    var result := ResultOf(r);
    Report(result.status, result.durationMs, result.error, Some(SummaryOf(result)), Some(result.artifacts))
  }

  function CallbackMessage(c: CallbackResult, http: bool): string {
    if c.CallbackRaised? && c.message != "" then c.message else NON_2XX + (if http then "http" else "fake") + ")"
  }

  function UriOf(s: Store, jobId: string): string {
    if jobId in s.jobs then s.jobs[jobId].lockUri else ""
  }

  /** The job cannot start now: somebody else holds its lock. */
  predicate Blocked(s: System, jobId: string, now: int) {
    UriOf(s.store, jobId) != "" && HeldAgainst(s.locks, UriOf(s.store, jobId), ByJob(jobId), now)
  }

  /** The store after the finishing callback of a job whose run was recorded. */
  function CalledBack(s: Store, jobId: string, env: Env): (r: Store)
    requires jobId in s.jobs
    ensures SameIdentities(s, r)
  {
    if s.jobs[jobId].statusUrl == "" || env.callback.Sent? then s
    else if env.callback.Failing? then MarkedFinished(s, jobId, P.CrashReport(env.callback.message), env.calledBackAt)
    else MarkedCallbackFailed(s, jobId, CallbackMessage(env.callback, env.http), 0, env.calledBackAt)
  }

  /** The store after a job that got its lock: started, run, reported, called back. */
  function StoreAfter(s: Store, jobId: string, env: Env): (r: Store)
    requires jobId in s.jobs
    ensures SameIdentities(s, r)
  {
    var started := MarkedRunning(s, jobId, env.startedAt);
    if env.runner.Broken? then MarkedFinished(started, jobId, P.CrashReport(env.runner.message), env.finishedAt)
    else CalledBack(MarkedFinished(started, jobId, RunnerReport(env.runner), env.finishedAt), jobId, env)
  }

  /** One execution of a popped job, and whether it was processed. */
  function Executed(s: System, jobId: string, env: Env): (System, bool) {
    if jobId !in s.store.jobs then (s, false)
    else if Blocked(s, jobId, env.acquiredAt) then (s.(queue := s.queue + [jobId]), false)
    else
      var uri := UriOf(s.store, jobId);
      var locked := if uri == "" then s.locks else Acquired(s.locks, uri, ByJob(jobId), None, env.acquiredAt);
      (System(StoreAfter(s.store, jobId, env),
              if uri == "" then locked else Released(locked, uri, ByJob(jobId)),
              s.queue,
              s.ran + [jobId]),
       true)
  }

  /** Popping the head of the queue and executing it. */
  function Cycle(s: System, env: Env): (System, bool)
    requires s.queue != []
  {
    Executed(s.(queue := s.queue[1..]), s.queue[0], env)
  }

  /** The job at the head of the queue is known and gets its lock. */
  predicate HeadRuns(s: System, env: Env) {
    s.queue != [] && s.queue[0] in s.store.jobs && !Blocked(s, s.queue[0], env.acquiredAt)
  }

  /** Up to `cap` cycles of the draining loop, from cycle `k`, and how many jobs were processed. */
  function Drained(s: System, envs: nat -> Env, k: nat, cap: nat): (System, nat)
    decreases cap - k
  {
    if k >= cap || s.queue == [] then (s, 0)
    else
      var (next, processed) := Cycle(s, envs(k));
      var (last, count) := Drained(next, envs, k + 1, cap);
      (last, if processed then count + 1 else count)
  }

  /** An answer, or the validation error raised instead. */
  datatype Response =
    | Response(accepted: bool, externalTaskId: string, jobId: string, status: string, message: string, duplicate: bool)
    | Invalid(code: string, message: string)

  const MISSING_COMMAND_ID := "MISSING_COMMAND_ID"
  const INVALID_EXTERNAL_TASK_ID := "INVALID_EXTERNAL_TASK_ID"
  const INVALID_CALLBACK_URL := "INVALID_CALLBACK_URL"
  const INVALID_TASK_SNAPSHOT := "INVALID_TASK_SNAPSHOT"
  const MISSING_LOCK_URI := "MISSING_LOCK_URI"
  const NO_LOCK_URI :=
    "Cannot derive lock_uri from job payload. Provide resource_lock.lock_uri or sufficient device_snapshot fields."

  /** What the validation of a request asks about its payload: why the URL policy rejects the callback, and whether a task came along. */
  datatype Payload = Payload(urlProblem: Option<string>, hasSnapshot: bool)

  /** The first thing wrong with a request. */
  function Complaint(req: P.Request, payload: Payload): Option<Response> {
    if req.commandId == "" then Some(Invalid(MISSING_COMMAND_ID, "command_id is required"))
    else if req.externalTaskId == "" then Some(Invalid(INVALID_EXTERNAL_TASK_ID, "external_task_id is required"))
    else if req.statusUrl == "" then Some(Invalid(INVALID_CALLBACK_URL, "callback.status_url is required"))
    else if payload.urlProblem.Some? then Some(Invalid(INVALID_CALLBACK_URL, payload.urlProblem.value))
    else if !payload.hasSnapshot then Some(Invalid(INVALID_TASK_SNAPSHOT, "job.task_snapshot is required"))
    else if req.lockUri == "" then Some(Invalid(MISSING_LOCK_URI, NO_LOCK_URI))
    else None
  }

  class DirectDispatchService {
    const store: DirectDispatchStore
    const lockMgr: ResourceLockManager
    var pending: seq<string>
    var ran: seq<string>

    function State(): System
      reads this, store, lockMgr
    {
      System(store.State(), lockMgr.table, pending, ran)
    }

    constructor ()
      ensures State() == System(JobStore.EMPTY, map[], [], [])
      ensures fresh(store) && fresh(lockMgr)
    {
      store := new DirectDispatchStore();
      lockMgr := new ResourceLockManager();
      pending, ran := [], [];
    }

    /**
     An invalid request changes nothing. An accepted job is stored and queued last; a duplicate command changes nothing
     and is told the winner's job and its status. The job id is the client's or a generated one. A caller alone cannot
     lose the race inside `Create`; the protocol module has that branch.
     */
    method SubmitJob(req: P.Request, payload: Payload, now: int) returns (r: Response)
      requires req.jobId != "" && Indexed(store.State())
      modifies this, store
      ensures r.Invalid? <==> Complaint(req, payload).Some?
      ensures r.Invalid? ==> Complaint(req, payload) == Some(r)
      ensures r.Response? ==>
        && P.ValidRequest(req) && r.externalTaskId == req.externalTaskId
        && r.accepted == !r.duplicate == (req.commandId !in old(store.byCommand))
        && if r.accepted then r.jobId == req.jobId && r.status == ACCEPTED && r.message == "job accepted"
           else var id := old(store.byCommand)[req.commandId];
             id in old(store.jobs) && r.jobId == id && r.status == old(store.jobs)[id].status && r.message == "duplicate command_id"
      ensures State() ==
        if r.Response? && r.accepted
        then old(State()).(store := Created(old(store.State()), P.NewJob(req), now), queue := old(pending) + [req.jobId])
        else old(State())
    {
      var complaint := Complaint(req, payload);
      if complaint.Some? {
        return complaint.value;
      }
      if req.commandId in store.byCommand {
        var existing := store.GetByCommandId(req.commandId);
        return Response(
          false, req.externalTaskId, if existing.Some? then existing.value.jobId else "",
          if existing.Some? then existing.value.status else "", "duplicate command_id", true);
      }
      var ok := store.Create(P.NewJob(req), now);
      pending := pending + [req.jobId];
      return Response(true, req.externalTaskId, req.jobId, ACCEPTED, "job accepted", false);
    }

    /** The part of an execution that runs under the lock. */
    method Perform(jobId: string, env: Env)
      requires jobId in store.jobs
      modifies this`ran, store
      ensures store.State() == StoreAfter(old(store.State()), jobId, env) && ran == old(ran) + [jobId]
    {
      var found := store.MarkRunning(jobId, env.startedAt);
      ran := ran + [jobId];
      if env.runner.Broken? {
        found := store.MarkFinished(jobId, P.CrashReport(env.runner.message), env.finishedAt);
      } else {
        found := store.MarkFinished(jobId, RunnerReport(env.runner), env.finishedAt);
        CallBack(jobId, env);
      }
    }

    /** The finishing callback, if the job has an address for it. */
    method CallBack(jobId: string, env: Env)
      requires jobId in store.jobs
      modifies store
      ensures store.State() == CalledBack(old(store.State()), jobId, env)
    {
      var found;
      var statusUrl := store.jobs[jobId].statusUrl;
      if statusUrl != "" && env.callback.Failing? {
        found := store.MarkFinished(jobId, P.CrashReport(env.callback.message), env.calledBackAt);
        return;
      }
      var sent := statusUrl != "" && env.callback.Sent?;
      if !sent && statusUrl != "" {
        found := store.MarkCallbackFailed(jobId, CallbackMessage(env.callback, env.http), 0, env.calledBackAt);
      }
    }

    method ExecuteAndCallback(jobId: string, env: Env) returns (processed: bool)
      modifies this, store, lockMgr
      ensures (State(), processed) == Executed(old(State()), jobId, env)
    {
      if jobId !in store.jobs {
        return false;
      }
      var job := store.jobs[jobId];
      var acquired := false;
      if job.lockUri != "" {
        acquired := lockMgr.Acquire(job.lockUri, ByJob(jobId), None, env.acquiredAt);
        if !acquired {
          pending := pending + [jobId];
          return false;
        }
      }
      Perform(jobId, env);
      if acquired {
        var released := lockMgr.Release(job.lockUri, ByJob(jobId));
      }
      return true;
    }

    method RunHead(env: Env) returns (processed: bool)
      requires pending != []
      modifies this, store, lockMgr
      ensures (State(), processed) == Cycle(old(State()), env)
    {
      var jobId := pending[0];
      pending := pending[1..];
      processed := ExecuteAndCallback(jobId, env);
    }

    /** True even when the popped job was only put back: it means that the runner was called exactly when the head could run. */
    method RunPendingOnce(env: Env) returns (popped: bool)
      modifies this, store, lockMgr
      ensures popped == (old(pending) != [])
      ensures State() == if popped then Cycle(old(State()), env).0 else old(State())
      ensures popped && ran == old(ran) + old(pending)[..1] <==> HeadRuns(old(State()), env)
      ensures !HeadRuns(old(State()), env) ==> ran == old(ran)
    {
      if pending == [] {
        return false;
      }
      var processed := RunHead(env);
      return true;
    }

    method RunAllPending(envs: nat -> Env) returns (count: nat)
      modifies this, store, lockMgr
      ensures (State(), count) == Drained(old(State()), envs, 0, 2 * |old(store.jobs)|)
    {
      count := 0;
      var maxCycles := |store.jobs| * 2;
      var cycle := 0;
      ghost var start := State();
      while cycle < maxCycles
        invariant cycle <= maxCycles
        invariant Drained(start, envs, 0, maxCycles).0 == Drained(State(), envs, cycle, maxCycles).0
        invariant Drained(start, envs, 0, maxCycles).1 == count + Drained(State(), envs, cycle, maxCycles).1
      {
        if pending == [] {
          break;
        }
        var processed := RunHead(envs(cycle));
        cycle := cycle + 1;
        if processed {
          count := count + 1;
        }
      }
    }
  }
}
