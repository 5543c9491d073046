/**
 The in-memory job store of the direct-dispatch service: three dictionaries and the
 job records behind them. Each operation of the store is one critical section.
 */
module JobStore {
  import opened Basics

  const ACCEPTED := "ACCEPTED"
  const RUNNING := "RUNNING"
  const FAILED := "FAILED"
  const SUCCEEDED := "SUCCEEDED"
  const CALLBACK_FAILED := "CALLBACK_FAILED"

  datatype JobError = JobError(code: string, message: string, retryable: bool, category: string)

  /** What is kept of the steps of a job. */
  datatype Summary = Summary(text: string, steps: nat, succeeded: nat, failed: nat)

  /** Times are whole milliseconds. */
  datatype Job = Job(
    externalTaskId: string,
    jobId: string,
    commandId: string,
    lockUri: string,
    statusUrl: string,
    status: string,
    receivedAt: int,
    startedAt: int,
    finishedAt: int,
    durationMs: int,
    error: Option<JobError>,
    summary: Option<Summary>,
    artifacts: seq<string>,
    lastCallbackError: string,
    lastCallbackCode: int,
    lastCallbackAt: int)

  datatype Store = Store(
    jobs: map<string, Job>,
    byExternal: map<string, string>,
    byCommand: map<string, string>)

  const EMPTY := Store(map[], map[], map[])

  function Bind(index: map<string, string>, key: string, jobId: string): map<string, string> {
    if key == "" then index else index[key := jobId]
  }

  predicate IsDuplicate(s: Store, commandId: string) {
    commandId in s.byCommand
  }

  predicate Creates(s: Store, job: Job) {
    job.commandId == "" || job.commandId !in s.byCommand
  }

  function Created(s: Store, job: Job, now: int): Store {
    if Creates(s, job) then
      Store(s.jobs[job.jobId := job.(receivedAt := now)],
            Bind(s.byExternal, job.externalTaskId, job.jobId),
            Bind(s.byCommand, job.commandId, job.jobId))
    else s
  }

  predicate SameIdentity(a: Job, b: Job) {
    && a.jobId == b.jobId && a.externalTaskId == b.externalTaskId && a.commandId == b.commandId
    && a.lockUri == b.lockUri && a.statusUrl == b.statusUrl
  }

  /** A later store: no job is lost, identities never change, and no command id is rebound. */
  ghost predicate Extends(s: Store, t: Store) {
    && (forall id :: id in s.jobs ==>
          id in t.jobs && SameIdentity(s.jobs[id], t.jobs[id]))
    && (forall c :: c in s.byCommand ==> c in t.byCommand && t.byCommand[c] == s.byCommand[c])
  }

  /** Only statuses, times and results differ. */
  ghost predicate SameIdentities(s: Store, t: Store) {
    && t.byCommand == s.byCommand && t.byExternal == s.byExternal && t.jobs.Keys == s.jobs.Keys
    && (forall id :: id in s.jobs ==> SameIdentity(s.jobs[id], t.jobs[id]))
  }

  function Updated(s: Store, jobId: string, job: Job): (r: Store)
    requires jobId in s.jobs && SameIdentity(s.jobs[jobId], job)
    ensures SameIdentities(s, r)
  {
    s.(jobs := s.jobs[jobId := job])
  }

  function MarkedRunning(s: Store, jobId: string, now: int): (r: Store)
    ensures SameIdentities(s, r)
  {
    if jobId in s.jobs then Updated(s, jobId, s.jobs[jobId].(status := RUNNING, startedAt := now)) else s
  }

  /** What the runner reported: a status, a duration (not positive when unknown), and an error, a summary and artifacts if given. */
  datatype Report = Report(
    status: string, durationMs: int, error: Option<JobError>, summary: Option<Summary>, artifacts: Option<seq<string>>)

  function MarkedFinished(s: Store, jobId: string, report: Report, now: int): (r: Store)
    ensures SameIdentities(s, r)
  {
    if jobId !in s.jobs then s
    else
      var job := s.jobs[jobId];
      Updated(s, jobId, job.(
        status := report.status,
        finishedAt := now,
        durationMs := if report.durationMs > 0 then report.durationMs else now - job.startedAt,
        error := if report.error.Some? then report.error else job.error,
        summary := if report.summary.Some? then report.summary else job.summary,
        artifacts := if report.artifacts.Some? then report.artifacts.value else job.artifacts))
  }

  function MarkedCallbackFailed(s: Store, jobId: string, message: string, code: int, now: int): (r: Store)
    ensures SameIdentities(s, r)
  {
    if jobId in s.jobs then
      Updated(s, jobId, s.jobs[jobId].(
        status := CALLBACK_FAILED, lastCallbackError := message, lastCallbackCode := code, lastCallbackAt := now))
    else s
  }

  /** Every command id leads to a stored job that carries it, and every stored job is found by its own id. */
  ghost predicate Indexed(s: Store) {
    && (forall id :: id in s.jobs ==> s.jobs[id].jobId == id)
    && (forall id :: id in s.jobs && s.jobs[id].commandId != "" ==>
          s.jobs[id].commandId in s.byCommand && s.byCommand[s.jobs[id].commandId] == id)
    && (forall c :: c in s.byCommand ==> c != "" && s.byCommand[c] in s.jobs && s.jobs[s.byCommand[c]].commandId == c)
    && (forall e :: e in s.byExternal ==> s.byExternal[e] in s.jobs)
  }

  lemma ExtendsTransitive(s: Store, t: Store, u: Store)
    requires Extends(s, t) && Extends(t, u)
    ensures Extends(s, u)
  {
  }

  lemma UnusedIdKeepsIndex(s: Store, job: Job, now: int)
    requires Indexed(s) && Creates(s, job) && job.commandId != "" && job.jobId !in s.jobs
    ensures Indexed(Created(s, job, now)) && Extends(s, Created(s, job, now))
  {
  }

  lemma UsedIdLosesJob(s: Store, job: Job, now: int)
    requires Indexed(s) && Creates(s, job) && job.commandId != "" && job.jobId in s.jobs
    ensures !Extends(s, Created(s, job, now))
  {
    assert Created(s, job, now).jobs[job.jobId].commandId != s.jobs[job.jobId].commandId;
  }

  /**
   An accepted creation keeps the store indexed and extends it exactly when its job id is unused:
   with a reused id the earlier command, if there is one, would lead to a job of another command.
   */
  lemma CreateKeepsIndexIff(s: Store, job: Job, now: int)
    requires Indexed(s) && Creates(s, job) && job.commandId != ""
    ensures Indexed(Created(s, job, now)) && Extends(s, Created(s, job, now)) <==> job.jobId !in s.jobs
  {
    if job.jobId in s.jobs {
      UsedIdLosesJob(s, job, now);
    } else {
      UnusedIdKeepsIndex(s, job, now);
    }
  }

  /** The store as the service uses it. The records are values; see the README for what that leaves out. */
  class DirectDispatchStore {
    var jobs: map<string, Job>
    var byExternal: map<string, string>
    var byCommand: map<string, string>

    function State(): Store
      reads this
    {
      Store(jobs, byExternal, byCommand)
    }

    constructor ()
      ensures State() == EMPTY
    {
      jobs, byExternal, byCommand := map[], map[], map[];
    }

    method Create(job: Job, now: int) returns (ok: bool)
      modifies this
      ensures ok == Creates(old(State()), job)
      ensures State() == Created(old(State()), job, now)
    {
      if job.commandId != "" && job.commandId in byCommand {
        return false;
      }
      jobs := jobs[job.jobId := job.(receivedAt := now)];
      if job.externalTaskId != "" {
        byExternal := byExternal[job.externalTaskId := job.jobId];
      }
      if job.commandId != "" {
        byCommand := byCommand[job.commandId := job.jobId];
      }
      return true;
    }

    method MarkRunning(jobId: string, now: int) returns (found: bool)
      modifies this
      ensures found == (jobId in old(jobs))
      ensures State() == MarkedRunning(old(State()), jobId, now)
    {
      if jobId !in jobs {
        return false;
      }
      jobs := jobs[jobId := jobs[jobId].(status := RUNNING, startedAt := now)];
      return true;
    }

    method MarkFinished(jobId: string, report: Report, now: int) returns (found: bool)
      modifies this
      ensures found == (jobId in old(jobs))
      ensures State() == MarkedFinished(old(State()), jobId, report, now)
    {
      if jobId !in jobs {
        return false;
      }
      var job := jobs[jobId].(status := report.status, finishedAt := now);
      if report.durationMs > 0 {
        job := job.(durationMs := report.durationMs);
      } else {
        job := job.(durationMs := job.finishedAt - job.startedAt);
      }
      if report.error.Some? {
        job := job.(error := report.error);
      }
      if report.summary.Some? {
        job := job.(summary := report.summary);
      }
      if report.artifacts.Some? {
        job := job.(artifacts := report.artifacts.value);
      }
      jobs := jobs[jobId := job];
      return true;
    }

    method MarkCallbackFailed(jobId: string, message: string, code: int, now: int) returns (found: bool)
      modifies this
      ensures found == (jobId in old(jobs))
      ensures State() == MarkedCallbackFailed(old(State()), jobId, message, code, now)
    {
      if jobId !in jobs {
        return false;
      }
      jobs := jobs[jobId := jobs[jobId].(
        status := CALLBACK_FAILED, lastCallbackError := message, lastCallbackCode := code, lastCallbackAt := now)];
      return true;
    }

    method GetByCommandId(commandId: string) returns (job: Option<Job>)
      ensures job == if commandId in byCommand && byCommand[commandId] in jobs
                     then Some(jobs[byCommand[commandId]]) else None
    {
      if commandId in byCommand && byCommand[commandId] in jobs {
        return Some(jobs[byCommand[commandId]]);
      }
      return None;
    }
  }
}
