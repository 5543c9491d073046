/**
 Direct dispatch as interleaved atomic steps: any number of submitters and workers share the
 job store, the lock table and the pending queue, and outsiders share the lock table. One step
 is one critical section of the service, the store or the lock manager.
 */
module DispatchProtocol {
  import opened Basics
  import opened JobStore
  import opened LockManager

  /** A validated request: the service has rejected the ones without these fields. */
  datatype Request = Request(
    commandId: string, externalTaskId: string, jobId: string, lockUri: string, statusUrl: string)

  predicate ValidRequest(r: Request) {
    r.commandId != "" && r.externalTaskId != "" && r.jobId != "" && r.lockUri != "" && r.statusUrl != ""
  }

  function NewJob(r: Request): Job {
    Job(r.externalTaskId, r.jobId, r.commandId, r.lockUri, r.statusUrl, ACCEPTED, 0, 0, 0, 0, None, None, [], "", 0, 0)
  }

  /** Where a submission stands. An answer carries the job id the caller is told. */
  datatype Submission =
    | Checking(req: Request)
    | Creating(req: Request)
    | Losing(req: Request)
    | Enqueuing(req: Request)
    | Answered(req: Request, accepted: bool, told: string)

  /** The runner returns a report, or an object on which reading a field raises. */
  datatype Outcome = Returned(report: Report) | Malformed(message: string)

  /** Where a worker stands with the job it popped. */
  datatype Phase =
    | Popped
    | Blocked
    | Locked
    | Started
    | Ran(outcome: Outcome)
    | Reported
    | Crashed(message: string)
    | Releasing

  datatype Worker = Worker(jobId: string, phase: Phase)

  /** `done`, `runs` and `winner` record history: released jobs, runner calls per job, and the submission that created a command. */
  datatype State = State(
    store: Store,
    locks: Table,
    queue: seq<string>,
    subs: map<nat, Submission>,
    workers: map<nat, Worker>,
    done: set<string>,
    runs: map<string, nat>,
    winner: map<string, nat>)

  const INITIAL := State(JobStore.EMPTY, map[], [], map[], map[], {}, map[], map[])

  datatype Submitting = Submit(req: Request) | Check | Create(now: int) | Lookup | Enqueue

  datatype Working =
    | Pop
    | Acquire(now: int)
    | Requeue
    | MarkRunning(now: int)
    | Run(outcome: Outcome)
    | MarkFinished(now: int)
    | Callback(sent: bool, message: string, now: int)
    | Crash(message: string)
    | FailCrashed(now: int)
    | Release

  datatype Meddling =
    | OtherAcquire(uri: string, name: string, ttl: Option<int>, now: int)
    | OtherRelease(uri: string, name: string)
    | Cleanup(now: int)

  datatype Step = BySubmitter(i: nat, sub: Submitting) | ByWorker(w: nat, work: Working) | ByOutsider(act: Meddling)

  predicate InPhase(s: State, w: nat, p: Phase) {
    w in s.workers && s.workers[w].phase == p
  }

  /** Inside the try block, so an exception there still marks the job and releases the lock. */
  predicate Guarded(p: Phase) {
    p.Locked? || p.Started? || p.Ran? || p.Reported?
  }

  predicate SubmitterEnabled(s: State, i: nat, a: Submitting) {
    match a
    case Submit(req) => i !in s.subs && ValidRequest(req)
    case Check => i in s.subs && s.subs[i].Checking?
    case Create(_) => i in s.subs && s.subs[i].Creating?
    case Lookup => i in s.subs && s.subs[i].Losing?
    case Enqueue => i in s.subs && s.subs[i].Enqueuing?
  }

  predicate WorkerEnabled(s: State, w: nat, a: Working) {
    match a
    case Pop => w !in s.workers && s.queue != []
    case Acquire(_) => InPhase(s, w, Popped)
    case Requeue => InPhase(s, w, Blocked)
    case MarkRunning(_) => InPhase(s, w, Locked)
    case Run(_) => InPhase(s, w, Started)
    case MarkFinished(_) => w in s.workers && s.workers[w].phase.Ran? && s.workers[w].phase.outcome.Returned?
    case Callback(_, _, _) => InPhase(s, w, Reported)
    case Crash(_) => w in s.workers && Guarded(s.workers[w].phase)
    case FailCrashed(_) => w in s.workers && s.workers[w].phase.Crashed?
    case Release => InPhase(s, w, Releasing)
  }

  predicate Enabled(s: State, step: Step) {
    match step
    case BySubmitter(i, a) => SubmitterEnabled(s, i, a)
    case ByWorker(w, a) => WorkerEnabled(s, w, a)
    case ByOutsider(_) => true
  }

  function Answer(s: State, i: nat, a: Submission): State {
    s.(subs := s.subs[i := a])
  }

  function Told(s: Store, commandId: string): string {
    if commandId in s.byCommand && s.byCommand[commandId] in s.jobs then s.jobs[s.byCommand[commandId]].jobId else ""
  }

  function Runs(s: State, jobId: string): nat {
    if jobId in s.runs then s.runs[jobId] else 0
  }

  const DISPATCH_FLOW_CRASH := "DISPATCH_FLOW_CRASH"
  const SYSTEM := "SYSTEM"

  /** Error messages are cut to this length. */
  const MESSAGE_LENGTH := 200

  function Shortened(message: string): string {
    if |message| > MESSAGE_LENGTH then message[..MESSAGE_LENGTH] else message
  }

  const EXEC_FAILED := "EXEC_FAILED"

  function CrashReport(message: string): Report {
    Report(FAILED, 0, Some(JobError(DISPATCH_FLOW_CRASH, Shortened(message), false, SYSTEM)),
           Some(Summary(EXEC_FAILED, 0, 0, 1)), Some([]))
  }

  function SubmitterStep(s: State, i: nat, a: Submitting): State
    requires SubmitterEnabled(s, i, a)
  {
    if a.Submit? then Answer(s, i, Checking(a.req))
    else
      var r := s.subs[i].req;
      match a
      case Check => Answer(s, i, if IsDuplicate(s.store, r.commandId) then Losing(r) else Creating(r))
      case Create(now) =>
        if Creates(s.store, NewJob(r)) then
          Answer(s, i, Enqueuing(r)).(store := Created(s.store, NewJob(r), now), winner := s.winner[r.commandId := i])
        else Answer(s, i, Losing(r))
      case Lookup => Answer(s, i, Answered(r, false, Told(s.store, r.commandId)))
      case Enqueue => Answer(s, i, Answered(r, true, r.jobId)).(queue := s.queue + [r.jobId])
  }

  /** The lock the worker's job needs; blank for a job without one. */
  function UriOf(s: State, w: nat): string
    requires w in s.workers
  {
    var id := s.workers[w].jobId;
    if id in s.store.jobs then s.store.jobs[id].lockUri else ""
  }

  predicate CallbackFails(s: State, w: nat, sent: bool)
    requires w in s.workers
  {
    var id := s.workers[w].jobId;
    !sent && id in s.store.jobs && s.store.jobs[id].statusUrl != ""
  }

  function StoreAfter(s: State, w: nat, a: Working): (r: Store)
    requires WorkerEnabled(s, w, a) && !a.Pop?
    ensures SameIdentities(s.store, r)
  {
    var id := s.workers[w].jobId;
    match a
    case MarkRunning(now) => MarkedRunning(s.store, id, now)
    case MarkFinished(now) => MarkedFinished(s.store, id, s.workers[w].phase.outcome.report, now)
    case FailCrashed(now) => MarkedFinished(s.store, id, CrashReport(s.workers[w].phase.message), now)
    case Callback(sent, message, now) =>
      if CallbackFails(s, w, sent) then MarkedCallbackFailed(s.store, id, message, 0, now) else s.store
    case _ => s.store
  }

  predicate Refused(s: State, w: nat, now: int)
    requires w in s.workers
  {
    UriOf(s, w) != "" && HeldAgainst(s.locks, UriOf(s, w), ByJob(s.workers[w].jobId), now)
  }

  function LocksAfter(s: State, w: nat, a: Working): Table
    requires WorkerEnabled(s, w, a) && !a.Pop?
  {
    if UriOf(s, w) == "" then s.locks
    else if a.Acquire? then Acquired(s.locks, UriOf(s, w), ByJob(s.workers[w].jobId), None, a.now)
    else if a.Release? then Released(s.locks, UriOf(s, w), ByJob(s.workers[w].jobId))
    else s.locks
  }

  function PhaseAfter(s: State, w: nat, a: Working): Phase
    requires WorkerEnabled(s, w, a) && !a.Pop? && !a.Requeue? && !a.Release?
  {
    match a
    case Acquire(now) => if Refused(s, w, now) then Blocked else Locked
    case MarkRunning(_) => Started
    case Run(outcome) => Ran(outcome)
    case MarkFinished(_) => Reported
    case Callback(_, _, _) => Releasing
    case Crash(message) => Crashed(message)
    case FailCrashed(_) => Releasing
  }

  function WorkerStep(s: State, w: nat, a: Working): State
    requires WorkerEnabled(s, w, a)
  {
    if a.Pop? then s.(queue := s.queue[1..], workers := s.workers[w := Worker(s.queue[0], Popped)])
    else
      var id := s.workers[w].jobId;
      var left := s.workers - {w};
      if a.Acquire? && id !in s.store.jobs then s.(workers := left)
      else
        State(
          StoreAfter(s, w, a),
          LocksAfter(s, w, a),
          if a.Requeue? then s.queue + [id] else s.queue,
          s.subs,
          if a.Requeue? || a.Release? then left else s.workers[w := Worker(id, PhaseAfter(s, w, a))],
          if a.Release? then s.done + {id} else s.done,
          if a.Run? then s.runs[id := Runs(s, id) + 1] else s.runs,
          s.winner)
  }

  function OutsiderStep(s: State, a: Meddling): State {
    match a
    case OtherAcquire(uri, name, ttl, now) => s.(locks := Acquired(s.locks, uri, ByOther(name), ttl, now))
    case OtherRelease(uri, name) => s.(locks := Released(s.locks, uri, ByOther(name)))
    case Cleanup(now) => s.(locks := Cleaned(s.locks, now))
  }

  function Apply(s: State, step: Step): State
    requires Enabled(s, step)
  {
    match step
    case BySubmitter(i, a) => SubmitterStep(s, i, a)
    case ByWorker(w, a) => WorkerStep(s, w, a)
    case ByOutsider(a) => OutsiderStep(s, a)
  }

  /** A schedule that can be taken from `s`, and where it leads. */
  ghost predicate Schedule(s: State, steps: seq<Step>)
    decreases |steps|
  {
    steps == [] || (Enabled(s, steps[0]) && Schedule(Apply(s, steps[0]), steps[1..]))
  }

  ghost function Exec(s: State, steps: seq<Step>): State
    requires Schedule(s, steps)
    decreases |steps|
  {
    if steps == [] then s else Exec(Apply(s, steps[0]), steps[1..])
  }

  /** The step creates a job under an id the store already holds, overwriting that job. */
  predicate ReusesId(s: State, step: Step) {
    step.BySubmitter? && step.sub.Create? && Enabled(s, step)
    && Creates(s.store, NewJob(s.subs[step.i].req)) && s.subs[step.i].req.jobId in s.store.jobs
  }

  ghost predicate NoReuse(s: State, steps: seq<Step>)
    requires Schedule(s, steps)
    decreases |steps|
  {
    steps == [] || (!ReusesId(s, steps[0]) && NoReuse(Apply(s, steps[0]), steps[1..]))
  }

  // ----- the invariant -----

  datatype Place = AtSubmission(i: nat) | InQueue(k: nat) | InFlight(w: nat) | Finished

  ghost predicate Holds(s: State, id: string, p: Place) {
    match p
    case AtSubmission(i) => i in s.subs && s.subs[i].Enqueuing? && s.subs[i].req.jobId == id
    case InQueue(k) => k < |s.queue| && s.queue[k] == id
    case InFlight(w) => w in s.workers && s.workers[w].jobId == id
    case Finished => id in s.done
  }

  /** Every stored job is in exactly one place, and nothing else is anywhere. */
  ghost predicate OnePlaceEach(s: State) {
    && (forall id :: id in s.store.jobs ==> exists p :: Holds(s, id, p))
    && (forall id, p :: Holds(s, id, p) ==> id in s.store.jobs)
    && (forall id, p, q :: Holds(s, id, p) && Holds(s, id, q) ==> p == q)
  }

  predicate PastRun(p: Phase) {
    p.Ran? || p.Reported? || p.Crashed? || p.Releasing?
  }

  ghost predicate InFlightPastRun(s: State, w: nat, id: string) {
    w in s.workers && s.workers[w].jobId == id && PastRun(s.workers[w].phase)
  }

  /** The runner may have been called for the job only if it is finished or its worker is past that point. */
  ghost predicate RunsAtMostOnce(s: State) {
    forall id :: Runs(s, id) > 0 ==> Runs(s, id) == 1 && (id in s.done || exists w :: InFlightPastRun(s, w, id))
  }

  predicate PastAcquire(p: Phase) {
    !p.Popped? && !p.Blocked?
  }

  predicate HoldsLock(s: State, w: nat, uri: string) {
    uri != "" && w in s.workers && PastAcquire(s.workers[w].phase) && UriOf(s, w) == uri
  }

  /** The service holds a lock, without expiry, exactly for the jobs past acquisition. */
  ghost predicate LocksMatch(s: State) {
    && (forall w, uri :: HoldsLock(s, w, uri) ==> uri in s.locks && s.locks[uri].owner == ByJob(s.workers[w].jobId))
    && (forall uri :: uri in s.locks && s.locks[uri].owner.ByJob? ==>
          s.locks[uri].ttl == None && exists w :: HoldsLock(s, w, uri))
  }

  /** What a submission knows about its command. */
  ghost predicate Knows(s: State, i: nat)
    requires i in s.subs
  {
    var r := s.subs[i].req;
    ValidRequest(r) &&
    match s.subs[i]
    case Checking(_) => true
    case Creating(_) => true
    case Losing(_) => r.commandId in s.store.byCommand
    case Enqueuing(_) => Won(s, i, r.commandId) && s.store.byCommand[r.commandId] == r.jobId
    case Answered(_, accepted, told) =>
      r.commandId in s.store.byCommand && told == s.store.byCommand[r.commandId] && (accepted ==> Won(s, i, r.commandId))
  }

  predicate Won(s: State, i: nat, commandId: string) {
    commandId in s.store.byCommand && commandId in s.winner && s.winner[commandId] == i
  }

  ghost predicate SubmissionsAgree(s: State) {
    && s.winner.Keys <= s.store.byCommand.Keys
    && forall i :: i in s.subs ==> Knows(s, i)
  }

  ghost predicate Inv(s: State) {
    Indexed(s.store) && OnePlaceEach(s) && RunsAtMostOnce(s) && LocksMatch(s) && SubmissionsAgree(s)
  }
}
