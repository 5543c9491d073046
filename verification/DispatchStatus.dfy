/** The recorded status of a job follows its place: a waiting job stays ACCEPTED and no released job is left RUNNING. */
module DispatchStatus {
  import opened Basics
  import opened JobStore
  import opened DispatchProtocol
  import opened DispatchProofs

  /** The status of a job that is over: one that the runner reports, or the service's own for a crash or a lost callback. */
  predicate Settled(status: string, known: set<string>) {
    status in known || status == FAILED || status == CALLBACK_FAILED
  }

  function StatusOf(s: State, id: string): string {
    if id in s.store.jobs then s.store.jobs[id].status else ""
  }

  predicate WorkerFits(s: State, w: nat, known: set<string>)
    requires w in s.workers
  {
    var status := StatusOf(s, s.workers[w].jobId);
    match s.workers[w].phase
    case Popped => status == ACCEPTED
    case Blocked => status == ACCEPTED
    case Locked => status == ACCEPTED
    case Started => status == RUNNING
    case Ran(outcome) => status == RUNNING && (outcome.Returned? ==> Settled(outcome.report.status, known))
    case Reported => Settled(status, known)
    case Crashed(_) => true
    case Releasing => Settled(status, known)
  }

  ghost predicate StatusesFit(s: State, known: set<string>) {
    && (forall i :: i in s.subs && s.subs[i].Enqueuing? ==> StatusOf(s, s.subs[i].req.jobId) == ACCEPTED)
    && (forall k :: 0 <= k < |s.queue| ==> StatusOf(s, s.queue[k]) == ACCEPTED)
    && (forall w :: w in s.workers ==> WorkerFits(s, w, known))
    && (forall id :: id in s.done ==> Settled(StatusOf(s, id), known))
  }

  /** What the runner reports is among the known statuses. */
  predicate ReportsKnown(step: Step, known: set<string>) {
    step.ByWorker? && step.work.Run? && step.work.outcome.Returned? ==> step.work.outcome.report.status in known
  }

  /** The statuses that the runner reports along a schedule. */
  function Reported(steps: seq<Step>): set<string> {
    set k | 0 <= k < |steps| && Reports(steps[k]) :: steps[k].work.outcome.report.status
  }

  predicate Reports(step: Step) {
    step.ByWorker? && step.work.Run? && step.work.outcome.Returned?
  }

  /** A worker writes no record but its own job's. */
  lemma OnlyOwnRecord(s: State, w: nat, a: Working, x: string)
    requires WorkerEnabled(s, w, a) && (w in s.workers ==> s.workers[w].jobId != x)
    ensures StatusOf(WorkerStep(s, w, a), x) == StatusOf(s, x)
  {
  }

  lemma MovedWorkerFits(s: State, w: nat, a: Working, known: set<string>)
    requires OnePlaceEach(s) && StatusesFit(s, known) && WorkerEnabled(s, w, a) && ReportsKnown(ByWorker(w, a), known)
    ensures var t := WorkerStep(s, w, a); w in t.workers ==> WorkerFits(t, w, known)
  {
    if a.Pop? {
      assert StatusOf(s, s.queue[0]) == ACCEPTED;
    } else {
      assert WorkerFits(s, w, known);
      assert Holds(s, s.workers[w].jobId, InFlight(w));
    }
  }

  lemma WorkerKeepsStatuses(s: State, w: nat, a: Working, known: set<string>)
    requires OnePlaceEach(s) && StatusesFit(s, known) && WorkerEnabled(s, w, a) && ReportsKnown(ByWorker(w, a), known)
    ensures StatusesFit(WorkerStep(s, w, a), known)
  {
    var t := WorkerStep(s, w, a);
    HoldersAfter(s, w, a);
    WorkerFrame(s, w, a);
    MovedWorkerFits(s, w, a, known);
    forall v | v in t.workers && v != w ensures WorkerFits(t, v, known) {
      OthersHold(s, w, v);
      OnlyOwnRecord(s, w, a, s.workers[v].jobId);
    }
    forall i | i in t.subs && t.subs[i].Enqueuing? ensures StatusOf(t, t.subs[i].req.jobId) == ACCEPTED {
      NotInFlight(s, w, s.subs[i].req.jobId, AtSubmission(i));
      OnlyOwnRecord(s, w, a, s.subs[i].req.jobId);
    }
    forall k | 0 <= k < |t.queue| ensures StatusOf(t, t.queue[k]) == ACCEPTED {
      QueueAfter(s, w, a, k, known);
    }
    forall id | id in t.done ensures Settled(StatusOf(t, id), known) {
      DoneAfter(s, w, a, id, known);
    }
  }

  lemma OthersHold(s: State, w: nat, v: nat)
    requires OnePlaceEach(s) && v in s.workers && v != w
    ensures w in s.workers ==> s.workers[v].jobId != s.workers[w].jobId
  {
    assert Holds(s, s.workers[v].jobId, InFlight(v));
    assert w in s.workers ==> Holds(s, s.workers[w].jobId, InFlight(w));
  }

  lemma NotInFlight(s: State, w: nat, id: string, p: Place)
    requires OnePlaceEach(s) && Holds(s, id, p) && p != InFlight(w)
    ensures w in s.workers ==> s.workers[w].jobId != id
  {
    assert w in s.workers ==> Holds(s, s.workers[w].jobId, InFlight(w));
  }

  lemma QueueAfter(s: State, w: nat, a: Working, k: nat, known: set<string>)
    requires OnePlaceEach(s) && StatusesFit(s, known) && WorkerEnabled(s, w, a)
    requires k < |WorkerStep(s, w, a).queue|
    ensures var t := WorkerStep(s, w, a); StatusOf(t, t.queue[k]) == ACCEPTED
  {
    var t := WorkerStep(s, w, a);
    if a.Requeue? && k == |s.queue| {
      assert WorkerFits(s, w, known);
    } else {
      var j := if a.Pop? then k + 1 else k;
      assert t.queue[k] == s.queue[j];
      NotInFlight(s, w, s.queue[j], InQueue(j));
      OnlyOwnRecord(s, w, a, s.queue[j]);
    }
  }

  lemma DoneAfter(s: State, w: nat, a: Working, id: string, known: set<string>)
    requires OnePlaceEach(s) && StatusesFit(s, known) && WorkerEnabled(s, w, a)
    requires id in WorkerStep(s, w, a).done
    ensures Settled(StatusOf(WorkerStep(s, w, a), id), known)
  {
    if id in s.done {
      NotInFlight(s, w, id, Finished);
      OnlyOwnRecord(s, w, a, id);
    } else {
      assert a.Release? && WorkerFits(s, w, known);
    }
  }

  /** A state that agrees with `s` on workers, queue and releases, and on the records those refer to. */
  lemma StatusesCarryOver(s: State, t: State, known: set<string>)
    requires OnePlaceEach(s) && StatusesFit(s, known)
    requires t.workers == s.workers && t.done == s.done
    requires forall id :: id in s.store.jobs ==> StatusOf(t, id) == StatusOf(s, id)
    requires forall i :: i in t.subs && t.subs[i].Enqueuing? ==> StatusOf(t, t.subs[i].req.jobId) == ACCEPTED
    requires forall k :: 0 <= k < |t.queue| ==> StatusOf(t, t.queue[k]) == ACCEPTED
    ensures StatusesFit(t, known)
  {
    forall w | w in t.workers ensures WorkerFits(t, w, known) {
      assert Holds(s, s.workers[w].jobId, InFlight(w)) && WorkerFits(s, w, known);
    }
    forall id | id in t.done ensures Settled(StatusOf(t, id), known) {
      assert Holds(s, id, Finished);
    }
  }

  lemma SubmittersWriteNoStatus(s: State, i: nat, a: Submitting, id: string)
    requires SubmitterEnabled(s, i, a) && !ReusesId(s, BySubmitter(i, a)) && id in s.store.jobs
    ensures StatusOf(SubmitterStep(s, i, a), id) == StatusOf(s, id)
  {
  }

  lemma WaitingAfter(s: State, i: nat, a: Submitting, j: nat, known: set<string>)
    requires OnePlaceEach(s) && StatusesFit(s, known) && SubmitterEnabled(s, i, a) && !ReusesId(s, BySubmitter(i, a))
    requires var t := SubmitterStep(s, i, a); j in t.subs && t.subs[j].Enqueuing?
    ensures var t := SubmitterStep(s, i, a); StatusOf(t, t.subs[j].req.jobId) == ACCEPTED
  {
    if j == i {
      assert a.Create?;
    } else {
      assert Holds(s, s.subs[j].req.jobId, AtSubmission(j));
      SubmittersWriteNoStatus(s, i, a, s.subs[j].req.jobId);
    }
  }

  lemma QueuedAfter(s: State, i: nat, a: Submitting, k: nat, known: set<string>)
    requires OnePlaceEach(s) && StatusesFit(s, known) && SubmitterEnabled(s, i, a) && !ReusesId(s, BySubmitter(i, a))
    requires k < |SubmitterStep(s, i, a).queue|
    ensures var t := SubmitterStep(s, i, a); StatusOf(t, t.queue[k]) == ACCEPTED
  {
    if k < |s.queue| {
      assert Holds(s, s.queue[k], InQueue(k));
      SubmittersWriteNoStatus(s, i, a, s.queue[k]);
    } else {
      assert Holds(s, s.subs[i].req.jobId, AtSubmission(i));
    }
  }

  lemma SubmitterKeepsStatuses(s: State, i: nat, a: Submitting, known: set<string>)
    requires OnePlaceEach(s) && StatusesFit(s, known) && SubmitterEnabled(s, i, a) && !ReusesId(s, BySubmitter(i, a))
    ensures StatusesFit(SubmitterStep(s, i, a), known)
  {
    var t := SubmitterStep(s, i, a);
    forall id | id in s.store.jobs ensures StatusOf(t, id) == StatusOf(s, id) { SubmittersWriteNoStatus(s, i, a, id); }
    forall j | j in t.subs && t.subs[j].Enqueuing? ensures StatusOf(t, t.subs[j].req.jobId) == ACCEPTED {
      WaitingAfter(s, i, a, j, known);
    }
    forall k | 0 <= k < |t.queue| ensures StatusOf(t, t.queue[k]) == ACCEPTED {
      QueuedAfter(s, i, a, k, known);
    }
    StatusesCarryOver(s, t, known);
  }

  lemma OutsiderKeepsStatuses(s: State, a: Meddling, known: set<string>)
    requires OnePlaceEach(s) && StatusesFit(s, known)
    ensures StatusesFit(OutsiderStep(s, a), known)
  {
    StatusesCarryOver(s, OutsiderStep(s, a), known);
  }

  lemma StepKeepsStatuses(s: State, step: Step, known: set<string>)
    requires OnePlaceEach(s) && StatusesFit(s, known) && Enabled(s, step) && !ReusesId(s, step) && ReportsKnown(step, known)
    ensures StatusesFit(Apply(s, step), known)
  {
    match step
    case BySubmitter(i, a) => SubmitterKeepsStatuses(s, i, a, known);
    case ByWorker(w, a) => WorkerKeepsStatuses(s, w, a, known);
    case ByOutsider(a) => OutsiderKeepsStatuses(s, a, known);
  }

  lemma {:induction false} StatusesFitFrom(s: State, steps: seq<Step>, known: set<string>)
    requires Inv(s) && StatusesFit(s, known) && Schedule(s, steps) && NoReuse(s, steps)
    requires forall k :: 0 <= k < |steps| ==> ReportsKnown(steps[k], known)
    ensures StatusesFit(Exec(s, steps), known)
    decreases |steps|
  {
    if steps != [] {
      StepKeepsInv(s, steps[0]);
      StepKeepsStatuses(s, steps[0], known);
      StatusesFitFrom(Apply(s, steps[0]), steps[1..], known);
    }
  }

  /**
   In every schedule a queued job is still ACCEPTED, and a released one has a status that the runner reported, FAILED or
   CALLBACK_FAILED, whatever crashed: it is neither ACCEPTED nor RUNNING unless the runner itself reports that.
   */
  lemma NoJobIsLeftRunning(steps: seq<Step>)
    requires Schedule(INITIAL, steps) && NoReuse(INITIAL, steps)
    ensures var s := Exec(INITIAL, steps);
      && (forall id :: id in s.queue ==> StatusOf(s, id) == ACCEPTED)
      && (forall id :: id in s.done ==> Settled(StatusOf(s, id), Reported(steps)))
  {
    InitialInv();
    forall k | 0 <= k < |steps| ensures ReportsKnown(steps[k], Reported(steps)) {
      if Reports(steps[k]) {
        assert steps[k].work.outcome.report.status in Reported(steps);
      }
    }
    StatusesFitFrom(INITIAL, steps, Reported(steps));
  }
}
