/** What becomes of a request and of a job, said in the values that clients see. */
module DispatchOutcomes {
  import opened Basics
  import opened JobStore
  import opened LockManager
  import P = DispatchProtocol
  import opened Dispatch

  // ----- requests -----

  /** The first thing wrong with a request decides the error code. */
  lemma ComplaintsAre(req: P.Request, payload: Payload)
    ensures req.commandId == "" ==> Complaint(req, payload) == Some(Invalid("MISSING_COMMAND_ID", "command_id is required"))
    ensures req.commandId != "" && req.externalTaskId == "" ==>
      Complaint(req, payload) == Some(Invalid("INVALID_EXTERNAL_TASK_ID", "external_task_id is required"))
    ensures req.commandId != "" && req.externalTaskId != "" && req.statusUrl == "" ==>
      Complaint(req, payload) == Some(Invalid("INVALID_CALLBACK_URL", "callback.status_url is required"))
    ensures forall text :: req.commandId != "" && req.externalTaskId != "" && req.statusUrl != "" && payload.urlProblem == Some(text) ==>
      Complaint(req, payload) == Some(Invalid("INVALID_CALLBACK_URL", text))
    ensures Reaches(req, payload) && !payload.hasSnapshot ==>
      Complaint(req, payload) == Some(Invalid("INVALID_TASK_SNAPSHOT", "job.task_snapshot is required"))
    ensures Reaches(req, payload) && payload.hasSnapshot && req.lockUri == "" ==>
      Complaint(req, payload) == Some(Invalid("MISSING_LOCK_URI",
        "Cannot derive lock_uri from job payload. Provide resource_lock.lock_uri or sufficient device_snapshot fields."))
    ensures Complaint(req, payload) == None <==> Reaches(req, payload) && payload.hasSnapshot && req.lockUri != ""
  {
  }

  /** Ids and callback address are in order. */
  predicate Reaches(req: P.Request, payload: Payload) {
    req.commandId != "" && req.externalTaskId != "" && req.statusUrl != "" && payload.urlProblem.None?
  }

  /** An accepted job waits with nothing but its request recorded, under its ids. */
  lemma AcceptedJobIs(s: Store, req: P.Request, now: int)
    requires P.ValidRequest(req) && req.commandId !in s.byCommand
    ensures Created(s, P.NewJob(req), now) == Store(
      s.jobs[req.jobId := Job(req.externalTaskId, req.jobId, req.commandId, req.lockUri, req.statusUrl,
                              "ACCEPTED", now, 0, 0, 0, None, None, [], "", 0, 0)],
      s.byExternal[req.externalTaskId := req.jobId],
      s.byCommand[req.commandId := req.jobId])
  {
  }

  // ----- executions -----

  /** The job is stored, and its lock, if it has one, is free, its own, or held by an entry that has expired. */
  predicate CanRun(s: System, id: string, now: int) {
    id in s.store.jobs &&
    var uri := s.store.jobs[id].lockUri;
    || uri == "" || uri !in s.locks || s.locks[uri].owner == ByJob(id)
    || (s.locks[uri].ttl.Some? && now - s.locks[uri].acquiredAt >= s.locks[uri].ttl.value)
  }

  lemma RunsIff(s: System, id: string, env: Env)
    ensures Executed(s, id, env).1 <==> CanRun(s, id, env.acquiredAt)
    ensures id !in s.store.jobs ==> Executed(s, id, env).0 == s
    ensures id in s.store.jobs && !CanRun(s, id, env.acquiredAt) ==> Executed(s, id, env).0 == s.(queue := s.queue + [id])
  {
  }

  lemma ExecutedIs(s: System, id: string, env: Env)
    requires CanRun(s, id, env.acquiredAt)
    ensures var t, uri := Executed(s, id, env).0, s.store.jobs[id].lockUri;
      && t.store == StoreAfter(s.store, id, env) && t.ran == s.ran + [id] && t.queue == s.queue
      && t.locks == if uri == "" then s.locks else Released(Acquired(s.locks, uri, ByJob(id), None, env.acquiredAt), uri, ByJob(id))
  {
    RunsIff(s, id, env);
  }

  /** Taking a lock and giving it back leaves it free. */
  lemma LockIsGone(t: Table, uri: string, owner: Owner, now: int)
    requires !HeldAgainst(t, uri, owner, now)
    ensures Released(Acquired(t, uri, owner, None, now), uri, owner) == t - {uri}
  {
  }

  /** The stores differ in one job at most. */
  predicate SameBut(s: Store, t: Store, id: string) {
    && id in t.jobs && t.byCommand == s.byCommand && t.byExternal == s.byExternal
    && t.jobs == s.jobs[id := t.jobs[id]]
  }

  lemma MarksTouchOnly(s: Store, id: string, start: int, report: Report, end: int, message: string, code: int)
    requires id in s.jobs
    ensures SameBut(s, MarkedRunning(s, id, start), id) && SameBut(s, MarkedFinished(s, id, report, end), id)
    ensures SameBut(s, MarkedCallbackFailed(s, id, message, code, end), id)
  {
  }

  lemma SameButOn(s: Store, t: Store, u: Store, id: string)
    requires SameBut(s, t, id) && SameBut(t, u, id)
    ensures SameBut(s, u, id)
  {
  }

  lemma CalledBackTouchesOnly(s: Store, id: string, env: Env)
    requires id in s.jobs
    ensures SameBut(s, CalledBack(s, id, env), id)
  {
    MarksTouchOnly(s, id, 0, P.CrashReport(if env.callback.Failing? then env.callback.message else ""), env.calledBackAt,
                   CallbackMessage(env.callback, env.http), 0);
  }

  lemma RecordingTouchesOnly(s: Store, id: string, report: Report, start: int, end: int)
    requires id in s.jobs
    ensures SameBut(s, MarkedFinished(MarkedRunning(s, id, start), id, report, end), id)
  {
    MarksTouchOnly(s, id, start, report, end, "", 0);
    MarksTouchOnly(MarkedRunning(s, id, start), id, start, report, end, "", 0);
    SameButOn(s, MarkedRunning(s, id, start), MarkedFinished(MarkedRunning(s, id, start), id, report, end), id);
  }

  lemma StoreTouchesOnly(s: Store, id: string, env: Env)
    requires id in s.jobs
    ensures SameBut(s, StoreAfter(s, id, env), id)
  {
    if env.runner.Broken? {
      RecordingTouchesOnly(s, id, P.CrashReport(env.runner.message), env.startedAt, env.finishedAt);
    } else {
      RecordingTouchesOnly(s, id, RunnerReport(env.runner), env.startedAt, env.finishedAt);
      CalledBackTouchesOnly(Recorded(s, id, env), id, env);
      SameButOn(s, Recorded(s, id, env), StoreAfter(s, id, env), id);
    }
  }

  /** Running a job records one runner call, gives its lock back, and touches nothing else. */
  lemma RunTouchesOnly(s: System, id: string, env: Env)
    requires CanRun(s, id, env.acquiredAt)
    ensures var t := Executed(s, id, env).0;
      && t.ran == s.ran + [id] && t.queue == s.queue
      && t.locks == (if s.store.jobs[id].lockUri == "" then s.locks else s.locks - {s.store.jobs[id].lockUri})
      && t.store.byCommand == s.store.byCommand && t.store.byExternal == s.store.byExternal
      && id in t.store.jobs && t.store.jobs == s.store.jobs[id := t.store.jobs[id]]
  {
    ExecutedIs(s, id, env);
    StoreTouchesOnly(s.store, id, env);
    if s.store.jobs[id].lockUri != "" {
      LockIsGone(s.locks, s.store.jobs[id].lockUri, ByJob(id), env.acquiredAt);
    }
  }

  /** The record of a job after its execution. */
  function After(s: System, id: string, env: Env): Job
    requires CanRun(s, id, env.acquiredAt)
  {
    ExecutedIs(s, id, env);
    Executed(s, id, env).0.store.jobs[id]
  }

  /** Starting a job and recording a report. */
  lemma RecordedIs(s: Store, id: string, report: Report, start: int, end: int)
    requires id in s.jobs
    ensures MarkedFinished(MarkedRunning(s, id, start), id, report, end).jobs[id] == s.jobs[id].(
        status := report.status,
        startedAt := start,
        finishedAt := end,
        durationMs := if report.durationMs > 0 then report.durationMs else end - start,
        error := if report.error.None? then s.jobs[id].error else report.error,
        summary := if report.summary.None? then s.jobs[id].summary else report.summary,
        artifacts := if report.artifacts.None? then s.jobs[id].artifacts else report.artifacts.value)
  {
  }

  predicate Quiet(s: System, id: string, env: Env)
    requires id in s.store.jobs
  {
    s.store.jobs[id].statusUrl == "" || env.callback.Sent?
  }

  lemma {:induction false} CountIsMultiplicity(steps: seq<string>, status: string)
    ensures CountOf(steps, status) == multiset(steps)[status]
  {
    if steps != [] {
      CountIsMultiplicity(steps[..|steps| - 1], status);
      assert steps == steps[..|steps| - 1] + [steps[|steps| - 1]];
    }
  }

  /** A job whose runner returned and whose callback, if any, arrived, has what the runner returned. */
  lemma ReturnedJobIs(s: System, id: string, env: Env)
    requires CanRun(s, id, env.acquiredAt) && env.runner.Reported? && Quiet(s, id, env)
    ensures var r, was := env.runner.result, s.store.jobs[id];
      After(s, id, env) == was.(
        status := r.status,
        startedAt := env.startedAt,
        finishedAt := env.finishedAt,
        durationMs := if r.durationMs > 0 then r.durationMs else env.finishedAt - env.startedAt,
        error := if r.error.None? then was.error else r.error,
        summary := Some(Summary("EXEC_" + r.status, |r.steps|, multiset(r.steps)["SUCCEEDED"], multiset(r.steps)["FAILED"])),
        artifacts := r.artifacts)
  {
    CountIsMultiplicity(env.runner.result.steps, "SUCCEEDED");
    CountIsMultiplicity(env.runner.result.steps, "FAILED");
    ExecutedIs(s, id, env);
    RecordedIs(s.store, id, RunnerReport(env.runner), env.startedAt, env.finishedAt);
  }

  /** A job whose runner raised has failed, with the crash as its error. */
  lemma RaisedJobIs(s: System, id: string, env: Env)
    requires CanRun(s, id, env.acquiredAt) && env.runner.Raised? && Quiet(s, id, env)
    ensures var m := env.runner.message;
      After(s, id, env) == s.store.jobs[id].(
        status := "FAILED",
        startedAt := env.startedAt,
        finishedAt := env.finishedAt,
        durationMs := env.finishedAt - env.startedAt,
        error := Some(JobError("RUNNER_CRASH", if |m| > 200 then m[..200] else m, false, "SYSTEM")),
        summary := Some(Summary("EXEC_FAILED", 0, 0, 0)),
        artifacts := [])
  {
    assert "EXEC_" + "FAILED" == "EXEC_FAILED";
    ExecutedIs(s, id, env);
    RecordedIs(s.store, id, RunnerReport(env.runner), env.startedAt, env.finishedAt);
  }

  /** A job whose runner returned something unusable has failed, and there is no callback. */
  lemma BrokenJobIs(s: System, id: string, env: Env)
    requires CanRun(s, id, env.acquiredAt) && env.runner.Broken?
    ensures var m := env.runner.message;
      After(s, id, env) == s.store.jobs[id].(
        status := "FAILED",
        startedAt := env.startedAt,
        finishedAt := env.finishedAt,
        durationMs := env.finishedAt - env.startedAt,
        error := Some(JobError("DISPATCH_FLOW_CRASH", if |m| > 200 then m[..200] else m, false, "SYSTEM")),
        summary := Some(Summary("EXEC_FAILED", 0, 0, 1)),
        artifacts := [])
  {
    ExecutedIs(s, id, env);
    RecordedIs(s.store, id, P.CrashReport(env.runner.message), env.startedAt, env.finishedAt);
  }

  /** The same execution with a callback that arrived. */
  function Heard(env: Env): Env {
    env.(callback := CallbackResult.Sent)
  }

  /** The store when the run is recorded and the callback is due. */
  function Recorded(s: Store, id: string, env: Env): (r: Store)
    requires id in s.jobs && !env.runner.Broken?
    ensures SameIdentities(s, r)
  {
    MarkedFinished(MarkedRunning(s, id, env.startedAt), id, RunnerReport(env.runner), env.finishedAt)
  }

  lemma HeardJobIs(s: System, id: string, env: Env)
    requires CanRun(s, id, env.acquiredAt) && !env.runner.Broken?
    ensures After(s, id, Heard(env)) == Recorded(s.store, id, env).jobs[id]
    ensures After(s, id, env) == CalledBack(Recorded(s.store, id, env), id, env).jobs[id]
  {
    ExecutedIs(s, id, env);
    ExecutedIs(s, id, Heard(env));
  }

  lemma UnheardRecordIs(s: Store, id: string, env: Env)
    requires id in s.jobs && s.jobs[id].statusUrl != "" && (env.callback.NotSent? || env.callback.CallbackRaised?)
    ensures CalledBack(s, id, env).jobs[id] == s.jobs[id].(
        status := "CALLBACK_FAILED",
        lastCallbackError := CallbackMessage(env.callback, env.http),
        lastCallbackCode := 0,
        lastCallbackAt := env.calledBackAt)
  {
  }

  lemma MessageIs(c: CallbackResult, http: bool)
    ensures c.CallbackRaised? && c.message != "" ==> CallbackMessage(c, http) == c.message
    ensures !(c.CallbackRaised? && c.message != "") ==>
      CallbackMessage(c, http) ==
        if http then "Callback returned non-2xx or exception (transport=http)"
        else "Callback returned non-2xx or exception (transport=fake)"
  {
    assert NON_2XX + "http" + ")" == "Callback returned non-2xx or exception (transport=http)";
    assert NON_2XX + "fake" + ")" == "Callback returned non-2xx or exception (transport=fake)";
  }

  /** A callback that was not sent, or raised, leaves the rest of the record as it would be. */
  lemma UnheardJobIs(s: System, id: string, env: Env)
    requires CanRun(s, id, env.acquiredAt) && !env.runner.Broken? && s.store.jobs[id].statusUrl != ""
    requires env.callback.NotSent? || env.callback.CallbackRaised?
    ensures After(s, id, env) == After(s, id, Heard(env)).(
        status := "CALLBACK_FAILED",
        lastCallbackError := CallbackMessage(env.callback, env.http),
        lastCallbackCode := 0,
        lastCallbackAt := env.calledBackAt)
  {
    HeardJobIs(s, id, env);
    UnheardRecordIs(Recorded(s.store, id, env), id, env);
  }

  /** When handling the callback itself fails, the job has failed whatever its runner returned. */
  lemma FailingJobIs(s: System, id: string, env: Env)
    requires CanRun(s, id, env.acquiredAt) && !env.runner.Broken? && s.store.jobs[id].statusUrl != "" && env.callback.Failing?
    ensures var m := env.callback.message;
      After(s, id, env) == s.store.jobs[id].(
        status := "FAILED",
        startedAt := env.startedAt,
        finishedAt := env.calledBackAt,
        durationMs := env.calledBackAt - env.startedAt,
        error := Some(JobError("DISPATCH_FLOW_CRASH", if |m| > 200 then m[..200] else m, false, "SYSTEM")),
        summary := Some(Summary("EXEC_FAILED", 0, 0, 1)),
        artifacts := [])
  {
    HeardJobIs(s, id, env);
    FailingRecordIs(Recorded(s.store, id, env), id, env.callback.message, env.calledBackAt);
    RecordedIs(s.store, id, RunnerReport(env.runner), env.startedAt, env.finishedAt);
  }

  lemma FailingRecordIs(s: Store, id: string, m: string, now: int)
    requires id in s.jobs
    ensures MarkedFinished(s, id, P.CrashReport(m), now).jobs[id] == s.jobs[id].(
        status := "FAILED",
        finishedAt := now,
        durationMs := now - s.jobs[id].startedAt,
        error := Some(JobError("DISPATCH_FLOW_CRASH", if |m| > 200 then m[..200] else m, false, "SYSTEM")),
        summary := Some(Summary("EXEC_FAILED", 0, 0, 1)),
        artifacts := [])
  {
  }

  /** A job that ran ends SUCCEEDED exactly when its runner said so and the callback, if there is one, arrived. */
  lemma SucceededIff(s: System, id: string, env: Env)
    requires CanRun(s, id, env.acquiredAt)
    ensures After(s, id, env).status == "SUCCEEDED" <==>
      env.runner.Reported? && env.runner.result.status == "SUCCEEDED" && Quiet(s, id, env)
  {
    assert "FAILED"[0] != "SUCCEEDED"[0] && "CALLBACK_FAILED"[0] != "SUCCEEDED"[0];
    if env.runner.Broken? {
      BrokenJobIs(s, id, env);
    } else if Quiet(s, id, env) {
      if env.runner.Reported? { ReturnedJobIs(s, id, env); } else { RaisedJobIs(s, id, env); }
    } else if env.callback.Failing? {
      FailingJobIs(s, id, env);
    } else {
      UnheardJobIs(s, id, env);
    }
  }

  // ----- locks -----

  /** When an acquisition is refused, and what entry it leaves otherwise. */
  lemma AcquiringIs(t: Table, uri: string, owner: Owner, ttl: Option<int>, now: int)
    ensures HeldAgainst(t, uri, owner, now) <==>
      uri in t && t[uri].owner != owner && (t[uri].ttl.None? || now - t[uri].acquiredAt < t[uri].ttl.value)
    ensures HeldAgainst(t, uri, owner, now) ==> Acquired(t, uri, owner, ttl, now) == t
    ensures !HeldAgainst(t, uri, owner, now) ==>
      Acquired(t, uri, owner, ttl, now) ==
        t[uri := Entry(owner, now, if ttl.None? && uri in t && t[uri].owner == owner then t[uri].ttl else ttl)]
  {
  }

  lemma ReleasingIs(t: Table, uri: string, owner: Owner, now: int)
    ensures uri in t && t[uri].owner == owner ==> Released(t, uri, owner) == t - {uri}
    ensures uri !in t || t[uri].owner != owner ==> Released(t, uri, owner) == t
    ensures forall x :: x in Cleaned(t, now) <==> x in t && (t[x].ttl.None? || now - t[x].acquiredAt < t[x].ttl.value)
    ensures forall x :: x in Cleaned(t, now) ==> Cleaned(t, now)[x] == t[x]
  {
  }
}
