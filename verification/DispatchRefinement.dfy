/** One sequential execution is a schedule of the concurrent protocol. */
module DispatchRefinement {
  import opened Basics
  import opened JobStore
  import opened LockManager
  import D = Dispatch
  import opened DispatchProtocol
  import opened DispatchProofs

  /** Leads there by steps of workers only. */
  ghost predicate Works(s: State, steps: seq<Step>, t: State) {
    Leads(s, steps, t) && ByWorkers(steps)
  }

  ghost predicate ByWorkers(steps: seq<Step>) {
    forall k :: 0 <= k < |steps| ==> steps[k].ByWorker?
  }

  lemma Then(s: State, steps: seq<Step>, t: State, w: nat, a: Working)
    requires Works(s, steps, t) && WorkerEnabled(t, w, a)
    ensures Works(s, steps + [ByWorker(w, a)], WorkerStep(t, w, a))
  {
    LeadsOn(s, steps, t, ByWorker(w, a));
  }

  /** `s` with worker `w` in phase `p` of job `id`, and the given store, locks and runs. */
  function At(s: State, w: nat, id: string, p: Phase, store: Store, locks: Table, runs: map<string, nat>): State {
    s.(store := store, locks := locks, runs := runs, workers := s.workers[w := Worker(id, p)])
  }

  function RunsIn(runs: map<string, nat>, id: string): nat {
    if id in runs then runs[id] else 0
  }

  /** Between acquisition and release a worker changes the store and its phase, and counts a run. */
  lemma Acts(s: State, w: nat, id: string, p: Phase, store: Store, locks: Table, runs: map<string, nat>, a: Working)
    requires var x := At(s, w, id, p, store, locks, runs); WorkerEnabled(x, w, a)
    requires !a.Pop? && !a.Acquire? && !a.Requeue? && !a.Release?
    ensures var x := At(s, w, id, p, store, locks, runs);
      WorkerStep(x, w, a) == At(s, w, id, PhaseAfter(x, w, a), StoreAfter(x, w, a), locks,
                                if a.Run? then runs[id := RunsIn(runs, id) + 1] else runs)
  {
  }

  lemma ThenActs(s0: State, steps: seq<Step>, s: State, w: nat, id: string, p: Phase, store: Store, locks: Table,
                 runs: map<string, nat>, a: Working, p': Phase, store': Store)
    requires var x := At(s, w, id, p, store, locks, runs);
      && Works(s0, steps, x) && WorkerEnabled(x, w, a)
      && !a.Pop? && !a.Acquire? && !a.Requeue? && !a.Release? && !a.Run?
      && PhaseAfter(x, w, a) == p' && StoreAfter(x, w, a) == store'
    ensures Works(s0, steps + [ByWorker(w, a)], At(s, w, id, p', store', locks, runs))
  {
    var x := At(s, w, id, p, store, locks, runs);
    Then(s0, steps, x, w, a);
    Acts(s, w, id, p, store, locks, runs, a);
  }

  function OutcomeOf(env: D.Env): Outcome {
    if env.runner.Broken? then Malformed(env.runner.message) else Returned(D.RunnerReport(env.runner))
  }

  /** From the return of the runner to the point of release. */
  lemma Reporting(s0: State, steps: seq<Step>, s: State, w: nat, id: string, before: Store, locks: Table,
                  runs: map<string, nat>, env: D.Env) returns (all: seq<Step>)
    requires id in before.jobs
    requires Works(s0, steps, At(s, w, id, Ran(OutcomeOf(env)), MarkedRunning(before, id, env.startedAt), locks, runs))
    ensures Works(s0, all, At(s, w, id, Releasing, D.StoreAfter(before, id, env), locks, runs))
  {
    var started := MarkedRunning(before, id, env.startedAt);
    if env.runner.Broken? {
      var crash := Crash(env.runner.message);
      ThenActs(s0, steps, s, w, id, Ran(OutcomeOf(env)), started, locks, runs, crash, Crashed(env.runner.message), started);
      ThenActs(s0, steps + [ByWorker(w, crash)], s, w, id, Crashed(env.runner.message), started, locks, runs,
               FailCrashed(env.finishedAt), Releasing, D.StoreAfter(before, id, env));
      all := steps + [ByWorker(w, crash)] + [ByWorker(w, FailCrashed(env.finishedAt))];
    } else {
      var finished := MarkedFinished(started, id, D.RunnerReport(env.runner), env.finishedAt);
      var finish := MarkFinished(env.finishedAt);
      ThenActs(s0, steps, s, w, id, Ran(OutcomeOf(env)), started, locks, runs, finish, Phase.Reported, finished);
      all := Answering(s0, steps + [ByWorker(w, finish)], s, w, id, before, finished, locks, runs, env);
    }
  }

  lemma AnsweringFails(s0: State, steps: seq<Step>, s: State, w: nat, id: string, finished: Store, locks: Table,
                       runs: map<string, nat>, message: string, now: int) returns (all: seq<Step>)
    requires id in finished.jobs && Works(s0, steps, At(s, w, id, Phase.Reported, finished, locks, runs))
    ensures Works(s0, all, At(s, w, id, Releasing, MarkedFinished(finished, id, CrashReport(message), now), locks, runs))
  {
    var crash, fail := Crash(message), FailCrashed(now);
    ThenActs(s0, steps, s, w, id, Phase.Reported, finished, locks, runs, crash, Crashed(message), finished);
    ThenActs(s0, steps + [ByWorker(w, crash)], s, w, id, Crashed(message), finished, locks, runs,
             fail, Releasing, MarkedFinished(finished, id, CrashReport(message), now));
    all := steps + [ByWorker(w, crash)] + [ByWorker(w, fail)];
  }

  lemma Answering(s0: State, steps: seq<Step>, s: State, w: nat, id: string, before: Store, finished: Store, locks: Table,
                  runs: map<string, nat>, env: D.Env) returns (all: seq<Step>)
    requires id in before.jobs && !env.runner.Broken?
    requires finished == MarkedFinished(MarkedRunning(before, id, env.startedAt), id, D.RunnerReport(env.runner), env.finishedAt)
    requires Works(s0, steps, At(s, w, id, Phase.Reported, finished, locks, runs))
    ensures Works(s0, all, At(s, w, id, Releasing, D.StoreAfter(before, id, env), locks, runs))
  {
    if env.callback.Failing? && before.jobs[id].statusUrl != "" {
      all := AnsweringFails(s0, steps, s, w, id, finished, locks, runs, env.callback.message, env.calledBackAt);
    } else {
      var answer := Callback(env.callback.Sent?, D.CallbackMessage(env.callback, env.http), env.calledBackAt);
      ThenActs(s0, steps, s, w, id, Phase.Reported, finished, locks, runs, answer, Releasing, D.StoreAfter(before, id, env));
      all := steps + [ByWorker(w, answer)];
    }
  }

  /** The part of a protocol state that the sequential service has. */
  function Shared(s: State, ran: seq<string>): D.System {
    D.System(s.store, s.locks, s.queue, ran)
  }

  lemma PopThenAcquire(s: State, w: nat, env: D.Env)
    requires w !in s.workers && s.queue != [] && s.queue[0] in s.store.jobs
    ensures var id := s.queue[0]; var popped := s.(queue := s.queue[1..]); var uri := D.UriOf(s.store, id);
      Works(s, [ByWorker(w, Pop), ByWorker(w, Acquire(env.acquiredAt))],
        if D.Blocked(Shared(s, []), id, env.acquiredAt)
        then At(popped, w, id, Phase.Blocked, s.store, s.locks, s.runs)
        else At(popped, w, id, Locked, s.store,
                if uri == "" then s.locks else Acquired(s.locks, uri, ByJob(id), None, env.acquiredAt), s.runs))
  {
    var id := s.queue[0];
    var popped := At(s.(queue := s.queue[1..]), w, id, Popped, s.store, s.locks, s.runs);
    assert Works(s, [], s);
    Then(s, [], s, w, Pop);
    assert [] + [ByWorker(w, Pop)] == [ByWorker(w, Pop)] && WorkerStep(s, w, Pop) == popped;
    Then(s, [ByWorker(w, Pop)], popped, w, Acquire(env.acquiredAt));
    assert [ByWorker(w, Pop)] + [ByWorker(w, Acquire(env.acquiredAt))] == [ByWorker(w, Pop), ByWorker(w, Acquire(env.acquiredAt))];
  }

  /** The runner calls counted since `s` are those of the service, from `before` to `after`. */
  ghost predicate CountsRuns(s: State, t: State, before: seq<string>, after: seq<string>) {
    before <= after && forall id :: Runs(t, id) == Runs(s, id) + multiset(after[|before|..])[id]
  }

  lemma CountsNothing(s: State, t: State, ran: seq<string>)
    requires t.runs == s.runs
    ensures CountsRuns(s, t, ran, ran)
  {
    assert ran[|ran|..] == [];
  }

  lemma CountsOne(s: State, t: State, ran: seq<string>, id: string)
    requires t.runs == s.runs[id := RunsIn(s.runs, id) + 1]
    ensures CountsRuns(s, t, ran, ran + [id])
  {
    assert (ran + [id])[|ran|..] == [id];
  }

  lemma CountsOn(s: State, t: State, u: State, a: seq<string>, b: seq<string>, c: seq<string>)
    requires CountsRuns(s, t, a, b) && CountsRuns(t, u, b, c)
    ensures CountsRuns(s, u, a, c)
  {
    assert c[|a|..] == b[|a|..] + c[|b|..];
  }

  lemma Running(s0: State, steps: seq<Step>, s: State, w: nat, id: string, before: Store, locks: Table,
                runs: map<string, nat>, env: D.Env) returns (all: seq<Step>, runs': map<string, nat>)
    requires id in before.jobs && Works(s0, steps, At(s, w, id, Locked, before, locks, runs))
    ensures Works(s0, all, At(s, w, id, Ran(OutcomeOf(env)), MarkedRunning(before, id, env.startedAt), locks, runs'))
    ensures runs' == runs[id := RunsIn(runs, id) + 1]
  {
    var start, run := MarkRunning(env.startedAt), Run(OutcomeOf(env));
    var started := MarkedRunning(before, id, env.startedAt);
    ThenActs(s0, steps, s, w, id, Locked, before, locks, runs, start, Started, started);
    var x := At(s, w, id, Started, started, locks, runs);
    Then(s0, steps + [ByWorker(w, start)], x, w, run);
    Acts(s, w, id, Started, started, locks, runs, run);
    all, runs' := steps + [ByWorker(w, start)] + [ByWorker(w, run)], runs[id := RunsIn(runs, id) + 1];
  }

  /** What the service makes of the shared state in one cycle is what has become of it in `t`, runner calls included. */
  ghost predicate CyclesTo(s: State, t: State, env: D.Env, ran: seq<string>)
    requires s.queue != []
  {
    var after := D.Cycle(Shared(s, ran), env).0;
    t.workers == s.workers && Shared(t, after.ran) == after && CountsRuns(s, t, ran, after.ran)
  }

  lemma BlockedCycle(s: State, w: nat, env: D.Env, ran: seq<string>) returns (steps: seq<Step>, t: State)
    requires w !in s.workers && s.queue != [] && s.queue[0] in s.store.jobs
    requires D.Blocked(Shared(s, []), s.queue[0], env.acquiredAt)
    ensures Works(s, steps, t) && CyclesTo(s, t, env, ran)
  {
    var popped := s.(queue := s.queue[1..]);
    PopThenAcquire(s, w, env);
    steps := [ByWorker(w, Pop), ByWorker(w, Acquire(env.acquiredAt))];
    var blocked := At(popped, w, s.queue[0], Phase.Blocked, s.store, s.locks, s.runs);
    Then(s, steps, blocked, w, Requeue);
    steps := steps + [ByWorker(w, Requeue)];
    t := WorkerStep(blocked, w, Requeue);
    assert t.workers == s.workers;
    CountsNothing(s, t, ran);
  }

  /** From the acquired lock to the end. */
  lemma FromLocked(s0: State, steps: seq<Step>, s: State, w: nat, id: string, before: Store, locks: Table,
                   runs: map<string, nat>, env: D.Env) returns (all: seq<Step>, t: State)
    requires id in before.jobs && w !in s.workers && Works(s0, steps, At(s, w, id, Locked, before, locks, runs))
    ensures Works(s0, all, t)
    ensures var uri := before.jobs[id].lockUri;
      && t.workers == s.workers && t.queue == s.queue && t.store == D.StoreAfter(before, id, env)
      && t.runs == runs[id := RunsIn(runs, id) + 1]
      && t.locks == if uri == "" then locks else Released(locks, uri, ByJob(id))
  {
    var runs';
    all, runs' := Running(s0, steps, s, w, id, before, locks, runs, env);
    all := Reporting(s0, all, s, w, id, before, locks, runs', env);
    all := GivingBack(s0, all, s, w, id, before, locks, runs', env);
    t := Exec(s0, all);
  }

  function LocksOf(s: State, id: string, env: D.Env): Table {
    var uri := D.UriOf(s.store, id);
    if uri == "" then s.locks else Acquired(s.locks, uri, ByJob(id), None, env.acquiredAt)
  }

  lemma Locking(s: State, w: nat, env: D.Env) returns (steps: seq<Step>)
    requires w !in s.workers && s.queue != [] && s.queue[0] in s.store.jobs
    requires !D.Blocked(Shared(s, []), s.queue[0], env.acquiredAt)
    ensures var id := s.queue[0];
      Works(s, steps, At(s.(queue := s.queue[1..]), w, id, Locked, s.store, LocksOf(s, id, env), s.runs))
  {
    PopThenAcquire(s, w, env);
    steps := [ByWorker(w, Pop), ByWorker(w, Acquire(env.acquiredAt))];
  }

  lemma FreeCycle(s: State, w: nat, env: D.Env, ran: seq<string>) returns (steps: seq<Step>, t: State)
    requires w !in s.workers && s.queue != [] && s.queue[0] in s.store.jobs
    requires !D.Blocked(Shared(s, []), s.queue[0], env.acquiredAt)
    ensures Works(s, steps, t) && CyclesTo(s, t, env, ran)
  {
    var id := s.queue[0];
    steps := Locking(s, w, env);
    steps, t := FromLocked(s, steps, s.(queue := s.queue[1..]), w, id, s.store, LocksOf(s, id, env), s.runs, env);
    FreeCycleEnds(s, t, env, ran);
  }

  lemma FreeCycleEnds(s: State, t: State, env: D.Env, ran: seq<string>)
    requires s.queue != [] && s.queue[0] in s.store.jobs && !D.Blocked(Shared(s, []), s.queue[0], env.acquiredAt)
    requires var id := s.queue[0]; var uri := D.UriOf(s.store, id);
      && t.workers == s.workers && t.queue == s.queue[1..] && t.store == D.StoreAfter(s.store, id, env)
      && t.runs == s.runs[id := RunsIn(s.runs, id) + 1]
      && t.locks == if uri == "" then LocksOf(s, id, env) else Released(LocksOf(s, id, env), uri, ByJob(id))
    ensures CyclesTo(s, t, env, ran)
  {
    CountsOne(s, t, ran, s.queue[0]);
  }

  /**
   Whatever the runner and the callback do, popping and executing one job is a schedule of one worker, with the same
   runner calls.
   */
  lemma CycleIsASchedule(s: State, w: nat, env: D.Env, ran: seq<string>) returns (steps: seq<Step>, t: State)
    requires w !in s.workers && s.queue != [] && s.queue[0] in s.store.jobs
    ensures Works(s, steps, t) && CyclesTo(s, t, env, ran)
  {
    if D.Blocked(Shared(s, []), s.queue[0], env.acquiredAt) {
      steps, t := BlockedCycle(s, w, env, ran);
    } else {
      steps, t := FreeCycle(s, w, env, ran);
    }
  }

  lemma Releases(s: State, w: nat, id: string, store: Store, locks: Table, runs: map<string, nat>)
    requires w !in s.workers && id in store.jobs
    ensures var x := At(s, w, id, Releasing, store, locks, runs); var t := WorkerStep(x, w, Release);
      && t.workers == s.workers && t.queue == s.queue && t.store == store && t.runs == runs
      && t.locks == if store.jobs[id].lockUri == "" then locks else Released(locks, store.jobs[id].lockUri, ByJob(id))
  {
    assert s.workers[w := Worker(id, Releasing)] - {w} == s.workers;
  }

  lemma GivingBack(s0: State, steps: seq<Step>, s: State, w: nat, id: string, before: Store, locks: Table,
                   runs: map<string, nat>, env: D.Env) returns (all: seq<Step>)
    requires id in before.jobs && w !in s.workers
    requires Works(s0, steps, At(s, w, id, Releasing, D.StoreAfter(before, id, env), locks, runs))
    ensures Schedule(s0, all) && ByWorkers(all)
    ensures var t := Exec(s0, all); var uri := before.jobs[id].lockUri;
      && t.workers == s.workers && t.queue == s.queue && t.store == D.StoreAfter(before, id, env) && t.runs == runs
      && t.locks == if uri == "" then locks else Released(locks, uri, ByJob(id))
  {
    var after := D.StoreAfter(before, id, env);
    assert after.jobs[id].lockUri == before.jobs[id].lockUri;
    Then(s0, steps, At(s, w, id, Releasing, after, locks, runs), w, Release);
    all := steps + [ByWorker(w, Release)];
    Releases(s, w, id, after, locks, runs);
  }

  // ----- the whole sequential service -----

  lemma {:induction false} LeadsThrough(s: State, first: seq<Step>, t: State, second: seq<Step>, u: State)
    requires Leads(s, first, t) && Leads(t, second, u)
    ensures Leads(s, first + second, u)
    decreases |first|
  {
    var all := first + second;
    if first == [] {
      assert all == second;
    } else {
      assert all[0] == first[0] && all[1..] == first[1..] + second;
      LeadsThrough(Apply(s, first[0]), first[1..], t, second, u);
    }
  }

  /** Everything queued is stored. */
  ghost predicate QueueStored(s: D.System) {
    forall id :: id in s.queue ==> id in s.store.jobs
  }

  lemma CycleKeepsQueueStored(s: D.System, env: D.Env)
    requires s.queue != [] && QueueStored(s)
    ensures QueueStored(D.Cycle(s, env).0)
  {
  }

  /** Draining the queue is a schedule of one worker. */
  lemma {:induction false} DrainIsASchedule(s: State, w: nat, envs: nat -> D.Env, k: nat, cap: nat, ran: seq<string>) returns (steps: seq<Step>)
    requires w !in s.workers && QueueStored(Shared(s, ran))
    ensures Schedule(s, steps) && ByWorkers(steps)
    ensures var t := Exec(s, steps); var (drained, _) := D.Drained(Shared(s, ran), envs, k, cap);
      t.workers == s.workers && Shared(t, drained.ran) == drained && CountsRuns(s, t, ran, drained.ran)
    decreases cap - k
  {
    steps := [];
    CountsNothing(s, s, ran);
    if k < cap && s.queue != [] {
      var first, t := CycleIsASchedule(s, w, envs(k), ran);
      CycleKeepsQueueStored(Shared(s, ran), envs(k));
      var rest := DrainIsASchedule(t, w, envs, k + 1, cap, D.Cycle(Shared(s, ran), envs(k)).0.ran);
      LeadsThrough(s, first, t, rest, Exec(t, rest));
      CountsOn(s, t, Exec(t, rest), ran, D.Cycle(Shared(s, ran), envs(k)).0.ran, D.Drained(Shared(s, ran), envs, k, cap).0.ran);
      steps := first + rest;
    }
  }

  lemma {:induction false} WorkersReuseNothing(s: State, steps: seq<Step>)
    requires Schedule(s, steps) && ByWorkers(steps)
    ensures NoReuse(s, steps)
    decreases |steps|
  {
    if steps != [] {
      WorkersReuseNothing(Apply(s, steps[0]), steps[1..]);
    }
  }

  /** So draining keeps the invariant of the protocol, also while other workers have jobs in hand. */
  lemma DrainKeepsInv(s: State, w: nat, envs: nat -> D.Env, cap: nat, ran: seq<string>) returns (t: State)
    requires Inv(s) && w !in s.workers
    ensures Inv(t) && t.workers == s.workers
    ensures var (drained, _) := D.Drained(Shared(s, ran), envs, 0, cap);
      Shared(t, drained.ran) == drained && CountsRuns(s, t, ran, drained.ran)
  {
    forall id | id in s.queue ensures id in s.store.jobs {
      var k :| 0 <= k < |s.queue| && s.queue[k] == id;
      assert Holds(s, id, InQueue(k));
    }
    var steps := DrainIsASchedule(s, w, envs, 0, cap, ran);
    WorkersReuseNothing(s, steps);
    SafetyFrom(s, steps);
    t := Exec(s, steps);
  }

  /** So is a submission, of one submitter: it does what the service's method does, and gets the same answer. */
  lemma SubmitIsASchedule(s: State, i: nat, r: Request, now: int, ran: seq<string>) returns (steps: seq<Step>)
    requires i !in s.subs && ValidRequest(r)
    ensures Schedule(s, steps)
    ensures var t := Exec(s, steps); var accepted := r.commandId !in s.store.byCommand;
      && t.workers == s.workers && t.runs == s.runs
      && Shared(t, ran) == (
        if accepted then Shared(s, ran).(store := Created(s.store, NewJob(r), now), queue := s.queue + [r.jobId])
        else Shared(s, ran))
      && i in t.subs && t.subs[i] == Answered(r, accepted, if accepted then r.jobId else Told(s.store, r.commandId))
      && (Indexed(s.store) && !accepted ==> Told(s.store, r.commandId) == s.store.byCommand[r.commandId])
  {
    if r.commandId in s.store.byCommand {
      steps := DuplicateLeads(s, i, r);
    } else {
      assert Leads(s, [], s);
      CreationLeads(s, [], s, i, r, now);
      LeadsOn(s, [] + CreationOf(i, r, now), CreationAfter(s, i, r, now), BySubmitter(i, Enqueue));
      steps := [] + CreationOf(i, r, now) + [BySubmitter(i, Enqueue)];
    }
  }

  lemma DuplicateLeads(s: State, i: nat, r: Request) returns (steps: seq<Step>)
    requires i !in s.subs && ValidRequest(r) && r.commandId in s.store.byCommand
    ensures Leads(s, steps, Answer(s, i, Answered(r, false, Told(s.store, r.commandId))))
  {
    var one, two := Answer(s, i, Checking(r)), Answer(s, i, Losing(r));
    assert Leads(s, [], s);
    LeadsOn(s, [], s, BySubmitter(i, Submit(r)));
    LeadsOn(s, [] + [BySubmitter(i, Submit(r))], one, BySubmitter(i, Check));
    assert Answer(one, i, Losing(r)) == two;
    steps := [] + [BySubmitter(i, Submit(r))] + [BySubmitter(i, Check)];
    LeadsOn(s, steps, two, BySubmitter(i, Lookup));
    assert Answer(two, i, Answered(r, false, Told(s.store, r.commandId))) == Answer(s, i, Answered(r, false, Told(s.store, r.commandId)));
    steps := steps + [BySubmitter(i, Lookup)];
  }
}
