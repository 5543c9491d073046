/** Safety of direct dispatch over every schedule. */
module DispatchProofs {
  import opened Basics
  import opened JobStore
  import opened LockManager
  import opened DispatchProtocol

  // ----- places -----

  ghost predicate SameJobsInHand(s: State, t: State) {
    && t.store.jobs.Keys == s.store.jobs.Keys && t.queue == s.queue && t.done == s.done
    && (forall i :: i in t.subs && t.subs[i].Enqueuing? <==> i in s.subs && s.subs[i].Enqueuing?)
    && (forall i :: i in t.subs && t.subs[i].Enqueuing? ==> t.subs[i] == s.subs[i])
    && t.workers.Keys == s.workers.Keys
    && (forall w :: w in t.workers ==> t.workers[w].jobId == s.workers[w].jobId)
  }

  lemma SamePlaces(s: State, t: State)
    requires OnePlaceEach(s) && SameJobsInHand(s, t)
    ensures OnePlaceEach(t)
  {
    assert forall id, p :: Holds(t, id, p) <==> Holds(s, id, p);
  }

  /** Steps that move a job from one place to another: `back` finds where a place's content was before. */
  lemma MovedPlaces(s: State, t: State, back: Place -> Place, forth: Place -> Place)
    requires OnePlaceEach(s)
    requires t.store.jobs.Keys == s.store.jobs.Keys
    requires forall id, p :: Holds(t, id, p) ==> Holds(s, id, back(p)) && forth(back(p)) == p
    requires forall id, p :: Holds(s, id, p) ==> Holds(t, id, forth(p))
    ensures OnePlaceEach(t)
  {
    forall id | id in t.store.jobs ensures exists p :: Holds(t, id, p) {
      var p :| Holds(s, id, p);
      assert Holds(t, id, forth(p));
    }
    forall id, p, q | Holds(t, id, p) && Holds(t, id, q) ensures p == q {
      assert back(p) == back(q);
    }
  }

  lemma QueuedPlaces(s: State, t: State, id: string, from: Place)
    requires OnePlaceEach(s) && t.store.jobs.Keys == s.store.jobs.Keys
    requires Holds(s, id, from) && !from.InQueue? && !from.Finished?
    requires t.queue == s.queue + [id]
    requires forall x :: !Holds(t, x, from)
    requires forall x, p :: p != from && !p.InQueue? ==> (Holds(t, x, p) <==> Holds(s, x, p))
    ensures OnePlaceEach(t)
  {
    var n := |s.queue|;
    MovedPlaces(s, t,
      (p: Place) => if p == InQueue(n) then from else p,
      (p: Place) => if p == from then InQueue(n) else p);
  }

  lemma CreatedPlaces(s: State, i: nat, now: int)
    requires OnePlaceEach(s) && SubmitterEnabled(s, i, Create(now)) && Creates(s.store, NewJob(s.subs[i].req))
    requires s.subs[i].req.jobId !in s.store.jobs
    ensures OnePlaceEach(SubmitterStep(s, i, Create(now)))
  {
    var t := SubmitterStep(s, i, Create(now));
    var created := s.subs[i].req.jobId;
    assert Holds(t, created, AtSubmission(i));
    forall id, p | Holds(t, id, p) ensures (p == AtSubmission(i) && id == created) || Holds(s, id, p) {}
    forall id | id in s.store.jobs ensures exists p :: Holds(t, id, p) {
      var p :| Holds(s, id, p);
      assert Holds(t, id, p);
    }
  }

  lemma SubmitterKeepsPlaces(s: State, i: nat, a: Submitting)
    requires OnePlaceEach(s) && SubmitterEnabled(s, i, a) && !ReusesId(s, BySubmitter(i, a))
    ensures OnePlaceEach(SubmitterStep(s, i, a))
  {
    var t := SubmitterStep(s, i, a);
    if a.Enqueue? {
      QueuedPlaces(s, t, s.subs[i].req.jobId, AtSubmission(i));
    } else if a.Create? && Creates(s.store, NewJob(s.subs[i].req)) {
      CreatedPlaces(s, i, a.now);
    } else {
      SamePlaces(s, t);
    }
  }

  lemma PopPlaces(s: State, w: nat)
    requires OnePlaceEach(s) && WorkerEnabled(s, w, Pop)
    ensures OnePlaceEach(WorkerStep(s, w, Pop))
  {
    MovedPlaces(s, WorkerStep(s, w, Pop),
      (p: Place) => if p.InQueue? then InQueue(p.k + 1) else if p == InFlight(w) then InQueue(0) else p,
      (p: Place) => if p.InQueue? then (if p.k == 0 then InFlight(w) else InQueue(p.k - 1)) else p);
  }

  lemma ReleasedPlaces(s: State, w: nat)
    requires OnePlaceEach(s) && WorkerEnabled(s, w, Release)
    ensures OnePlaceEach(WorkerStep(s, w, Release))
  {
    var t := WorkerStep(s, w, Release);
    var id := s.workers[w].jobId;
    assert Holds(s, id, InFlight(w));
    forall x, p | Holds(t, x, p) ensures Holds(s, x, p) || (x == id && p == Finished) {}
    forall x | x in t.store.jobs ensures exists p :: Holds(t, x, p) {
      var p :| Holds(s, x, p);
      assert Holds(t, x, if p == InFlight(w) then Finished else p);
    }
    assert forall p :: Holds(t, id, p) ==> p == Finished;
  }

  // ----- what a worker step leaves alone -----

  /** A worker changes statuses only; it never touches identities, submissions or winners. */
  lemma WorkerFrame(s: State, w: nat, a: Working)
    requires WorkerEnabled(s, w, a)
    ensures var t := WorkerStep(s, w, a);
      SameIdentities(s.store, t.store) && t.subs == s.subs && t.winner == s.winner
  {
  }

  /** Unless it pops, requeues or releases, a worker keeps its job and only moves on to another phase. */
  lemma WorkerStaysPut(s: State, w: nat, a: Working)
    requires WorkerEnabled(s, w, a) && !a.Pop? && !a.Requeue? && !a.Release?
    requires s.workers[w].jobId in s.store.jobs
    ensures var t := WorkerStep(s, w, a);
      t.queue == s.queue && t.done == s.done && t.workers == s.workers[w := Worker(s.workers[w].jobId, t.workers[w].phase)]
  {
  }

  lemma WorkerKeepsPlaces(s: State, w: nat, a: Working)
    requires OnePlaceEach(s) && WorkerEnabled(s, w, a)
    ensures OnePlaceEach(WorkerStep(s, w, a))
  {
    var t := WorkerStep(s, w, a);
    WorkerFrame(s, w, a);
    if a.Pop? {
      PopPlaces(s, w);
    } else if a.Requeue? {
      QueuedPlaces(s, t, s.workers[w].jobId, InFlight(w));
    } else if a.Release? {
      ReleasedPlaces(s, w);
    } else {
      assert Holds(s, s.workers[w].jobId, InFlight(w));
      WorkerStaysPut(s, w, a);
      SamePlaces(s, t);
    }
  }

  // ----- the runner is called at most once for a job -----

  lemma RunsCarryOver(s: State, t: State)
    requires RunsAtMostOnce(s) && t.runs == s.runs && s.done <= t.done
    requires forall w, id :: InFlightPastRun(s, w, id) && id !in t.done ==> InFlightPastRun(t, w, id)
    ensures RunsAtMostOnce(t)
  {
    forall id | Runs(t, id) > 0 && id !in t.done ensures exists w :: InFlightPastRun(t, w, id) {
      assert Runs(s, id) > 0;
      var w :| InFlightPastRun(s, w, id);
      assert InFlightPastRun(t, w, id);
    }
    assert forall id :: Runs(t, id) == Runs(s, id);
  }

  /** A worker about to call the runner holds a job the runner was never called for. */
  lemma NotRunBefore(s: State, w: nat)
    requires OnePlaceEach(s) && RunsAtMostOnce(s)
    requires w in s.workers && !PastRun(s.workers[w].phase)
    ensures Runs(s, s.workers[w].jobId) == 0
  {
    var id := s.workers[w].jobId;
    assert Holds(s, id, InFlight(w));
    if Runs(s, id) > 0 {
      assert !Holds(s, id, Finished);
      var v :| InFlightPastRun(s, v, id);
      assert Holds(s, id, InFlight(v));
      assert false;
    }
  }

  lemma RunKeepsRuns(s: State, w: nat, outcome: Outcome)
    requires OnePlaceEach(s) && RunsAtMostOnce(s) && WorkerEnabled(s, w, Run(outcome))
    ensures RunsAtMostOnce(WorkerStep(s, w, Run(outcome)))
  {
    NotRunBefore(s, w);
    var t := WorkerStep(s, w, Run(outcome));
    var id := s.workers[w].jobId;
    forall x | Runs(t, x) > 0 && x !in t.done ensures exists v :: InFlightPastRun(t, v, x) {
      if x == id {
        assert InFlightPastRun(t, w, x);
      } else {
        assert Runs(s, x) > 0;
        var v :| InFlightPastRun(s, v, x);
        assert InFlightPastRun(t, v, x);
      }
    }
  }

  lemma WorkerKeepsRuns(s: State, w: nat, a: Working)
    requires OnePlaceEach(s) && RunsAtMostOnce(s) && WorkerEnabled(s, w, a)
    ensures RunsAtMostOnce(WorkerStep(s, w, a))
  {
    if a.Run? {
      RunKeepsRuns(s, w, a.outcome);
    } else {
      RunsCarryOver(s, WorkerStep(s, w, a));
    }
  }

  // ----- locks -----

  lemma LocksCarryOver(s: State, t: State)
    requires LocksMatch(s)
    requires forall w, uri :: HoldsLock(t, w, uri) <==> HoldsLock(s, w, uri)
    requires forall w, uri :: HoldsLock(t, w, uri) && HoldsLock(s, w, uri) ==> t.workers[w].jobId == s.workers[w].jobId
    requires forall uri :: uri in s.locks && s.locks[uri].owner.ByJob? ==> uri in t.locks && t.locks[uri] == s.locks[uri]
    requires forall uri :: uri in t.locks && t.locks[uri].owner.ByJob? ==> uri in s.locks && t.locks[uri] == s.locks[uri]
    ensures LocksMatch(t)
  {
    forall uri | uri in t.locks && t.locks[uri].owner.ByJob? ensures exists w :: HoldsLock(t, w, uri) {
      var w :| HoldsLock(s, w, uri);
      assert HoldsLock(t, w, uri);
    }
  }

  lemma HolderAfter(s: State, w: nat, a: Working, v: nat)
    requires WorkerEnabled(s, w, a) && v != w
    ensures var t := WorkerStep(s, w, a);
      && (v in t.workers <==> v in s.workers) && (v in s.workers ==> t.workers[v] == s.workers[v])
      && forall uri :: HoldsLock(t, v, uri) <==> HoldsLock(s, v, uri)
  {
    WorkerFrame(s, w, a);
  }

  /** A worker step changes only that worker's hold on its own lock. */
  lemma HoldersAfter(s: State, w: nat, a: Working)
    requires WorkerEnabled(s, w, a)
    ensures var t := WorkerStep(s, w, a);
      && (forall v, uri :: v != w ==> (HoldsLock(t, v, uri) <==> HoldsLock(s, v, uri)))
      && (forall v :: v != w && v in s.workers ==> v in t.workers && t.workers[v] == s.workers[v])
  {
    var t := WorkerStep(s, w, a);
    forall v: nat | v != w
      ensures (v in s.workers ==> v in t.workers && t.workers[v] == s.workers[v])
      ensures forall uri :: HoldsLock(t, v, uri) <==> HoldsLock(s, v, uri)
    {
      HolderAfter(s, w, a, v);
    }
  }

  /** A live entry of another job refuses the acquisition, so success means nobody was past acquire with this lock. */
  lemma AcquireKeepsLocks(s: State, w: nat, now: int)
    requires OnePlaceEach(s) && LocksMatch(s) && WorkerEnabled(s, w, Acquire(now))
    requires UriOf(s, w) != "" && !Refused(s, w, now)
    ensures LocksMatch(WorkerStep(s, w, Acquire(now)))
  {
    var t := WorkerStep(s, w, Acquire(now));
    var mine := UriOf(s, w);
    HoldersAfter(s, w, Acquire(now));
    assert HoldsLock(t, w, mine);
    forall v, uri | HoldsLock(t, v, uri) ensures uri in t.locks && t.locks[uri].owner == ByJob(t.workers[v].jobId) {
      if v != w {
        assert HoldsLock(s, v, uri);
        assert Holds(s, s.workers[v].jobId, InFlight(v)) && Holds(s, s.workers[w].jobId, InFlight(w));
      }
    }
    forall uri | uri in t.locks && t.locks[uri].owner.ByJob?
      ensures t.locks[uri].ttl == None && exists v :: HoldsLock(t, v, uri)
    {
      if uri != mine {
        var v :| HoldsLock(s, v, uri);
        assert HoldsLock(t, v, uri);
      }
    }
  }

  lemma ReleaseKeepsLocks(s: State, w: nat)
    requires OnePlaceEach(s) && LocksMatch(s) && WorkerEnabled(s, w, Release)
    ensures LocksMatch(WorkerStep(s, w, Release))
  {
    var t := WorkerStep(s, w, Release);
    HoldersAfter(s, w, Release);
    forall v, uri | HoldsLock(t, v, uri) ensures uri in t.locks && t.locks[uri].owner == ByJob(t.workers[v].jobId) {
      assert v != w && HoldsLock(s, v, uri);
      assert Holds(s, s.workers[v].jobId, InFlight(v)) && Holds(s, s.workers[w].jobId, InFlight(w));
    }
    forall uri | uri in t.locks && t.locks[uri].owner.ByJob?
      ensures t.locks[uri].ttl == None && exists v :: HoldsLock(t, v, uri)
    {
      var v :| HoldsLock(s, v, uri);
      assert uri == UriOf(s, w) ==> HoldsLock(s, w, uri);
      assert v != w && HoldsLock(t, v, uri);
    }
  }

  /** A step that neither takes nor gives a lock keeps its worker on the same side of acquisition, if it has a lock. */
  lemma SameSide(s: State, w: nat, a: Working, uri: string)
    requires WorkerEnabled(s, w, a) && !a.Release?
    requires a.Acquire? ==> UriOf(s, w) == "" || Refused(s, w, a.now)
    ensures HoldsLock(WorkerStep(s, w, a), w, uri) <==> HoldsLock(s, w, uri)
  {
    var t := WorkerStep(s, w, a);
    WorkerFrame(s, w, a);
    if a.Pop? || a.Requeue? {
    } else if a.Acquire? {
      assert !HoldsLock(s, w, uri);
      assert w in t.workers ==> UriOf(t, w) == UriOf(s, w);
    } else {
      assert PastAcquire(s.workers[w].phase) && PastAcquire(t.workers[w].phase);
      assert UriOf(t, w) == UriOf(s, w);
    }
  }

  lemma OtherStepsKeepLocks(s: State, w: nat, a: Working)
    requires LocksMatch(s) && WorkerEnabled(s, w, a) && !a.Release?
    requires a.Acquire? ==> UriOf(s, w) == "" || Refused(s, w, a.now)
    ensures LocksMatch(WorkerStep(s, w, a))
  {
    var t := WorkerStep(s, w, a);
    HoldersAfter(s, w, a);
    forall uri ensures HoldsLock(t, w, uri) <==> HoldsLock(s, w, uri) {
      SameSide(s, w, a, uri);
    }
    SameOwner(s, w, a);
    LocksCarryOver(s, t);
  }

  lemma SameOwner(s: State, w: nat, a: Working)
    requires WorkerEnabled(s, w, a) && !a.Release?
    requires a.Acquire? ==> UriOf(s, w) == "" || Refused(s, w, a.now)
    ensures var t := WorkerStep(s, w, a);
      t.locks == s.locks && (w in s.workers && w in t.workers ==> t.workers[w].jobId == s.workers[w].jobId)
  {
  }

  lemma WorkerKeepsLocks(s: State, w: nat, a: Working)
    requires OnePlaceEach(s) && LocksMatch(s) && WorkerEnabled(s, w, a)
    ensures LocksMatch(WorkerStep(s, w, a))
  {
    if a.Release? {
      ReleaseKeepsLocks(s, w);
    } else if a.Acquire? && UriOf(s, w) != "" && !Refused(s, w, a.now) {
      AcquireKeepsLocks(s, w, a.now);
    } else {
      OtherStepsKeepLocks(s, w, a);
    }
  }

  lemma OutsiderKeepsLocks(s: State, a: Meddling)
    requires LocksMatch(s)
    ensures LocksMatch(OutsiderStep(s, a))
  {
    var t := OutsiderStep(s, a);
    assert forall w, uri :: HoldsLock(t, w, uri) <==> HoldsLock(s, w, uri);
    LocksCarryOver(s, t);
  }

  // ----- submitters -----

  lemma SubmitterKeepsLocks(s: State, i: nat, a: Submitting)
    requires OnePlaceEach(s) && LocksMatch(s) && SubmitterEnabled(s, i, a) && !ReusesId(s, BySubmitter(i, a))
    ensures LocksMatch(SubmitterStep(s, i, a))
  {
    var t := SubmitterStep(s, i, a);
    forall w | w in s.workers ensures UriOf(t, w) == UriOf(s, w) {
      assert Holds(s, s.workers[w].jobId, InFlight(w));
    }
    LocksCarryOver(s, t);
  }

  lemma SubmitterKeepsIndex(s: State, i: nat, a: Submitting)
    requires Indexed(s.store) && SubmissionsAgree(s)
    requires SubmitterEnabled(s, i, a) && !ReusesId(s, BySubmitter(i, a))
    ensures var t := SubmitterStep(s, i, a); Indexed(t.store) && Extends(s.store, t.store)
  {
    if a.Create? && Creates(s.store, NewJob(s.subs[i].req)) {
      CreateKeepsIndexIff(s.store, NewJob(s.subs[i].req), a.now);
    }
  }

  /** What a submission knows stays true in any later store and under any later winners. */
  lemma KnowledgeCarriesOver(s: State, t: State, j: nat)
    requires SubmissionsAgree(s) && Indexed(s.store) && Indexed(t.store) && Extends(s.store, t.store)
    requires forall c :: c in s.winner ==> c in t.winner && t.winner[c] == s.winner[c]
    requires j in s.subs && j in t.subs && t.subs[j] == s.subs[j]
    ensures Knows(t, j)
  {
  }

  /** The one submission that moved knows what its new stage requires. */
  lemma MovedSubmissionKnows(s: State, i: nat, a: Submitting)
    requires Indexed(s.store) && SubmissionsAgree(s)
    requires SubmitterEnabled(s, i, a) && !ReusesId(s, BySubmitter(i, a))
    ensures Knows(SubmitterStep(s, i, a), i)
  {
    if !a.Submit? {
      assert Knows(s, i);
    }
  }

  lemma SubmitterKeepsAgreement(s: State, i: nat, a: Submitting)
    requires Indexed(s.store) && SubmissionsAgree(s)
    requires SubmitterEnabled(s, i, a) && !ReusesId(s, BySubmitter(i, a))
    ensures SubmissionsAgree(SubmitterStep(s, i, a))
  {
    var t := SubmitterStep(s, i, a);
    SubmitterKeepsIndex(s, i, a);
    MovedSubmissionKnows(s, i, a);
    SubmitterFrame(s, i, a);
    forall j | j in t.subs && j != i ensures Knows(t, j) {
      KnowledgeCarriesOver(s, t, j);
    }
  }

  lemma SubmitterFrame(s: State, i: nat, a: Submitting)
    requires SubmitterEnabled(s, i, a) && SubmissionsAgree(s)
    ensures var t := SubmitterStep(s, i, a);
      && t.winner.Keys <= t.store.byCommand.Keys
      && (forall c :: c in s.winner ==> c in t.winner && t.winner[c] == s.winner[c])
      && (forall j :: j != i && j in t.subs ==> j in s.subs && t.subs[j] == s.subs[j])
  {
  }

  lemma WorkerKeepsAgreement(s: State, w: nat, a: Working)
    requires Indexed(s.store) && SubmissionsAgree(s) && WorkerEnabled(s, w, a)
    ensures var t := WorkerStep(s, w, a); Indexed(t.store) && SubmissionsAgree(t)
  {
    var t := WorkerStep(s, w, a);
    WorkerFrame(s, w, a);
    forall j | j in t.subs ensures Knows(t, j) {
      KnowledgeCarriesOver(s, t, j);
    }
  }

  // ----- theorems -----

  lemma SubmitterKeepsInv(s: State, i: nat, a: Submitting)
    requires Inv(s) && SubmitterEnabled(s, i, a) && !ReusesId(s, BySubmitter(i, a))
    ensures var t := SubmitterStep(s, i, a); Inv(t) && Extends(s.store, t.store)
  {
    SubmitterKeepsPlaces(s, i, a);
    SubmitterKeepsLocks(s, i, a);
    SubmitterKeepsIndex(s, i, a);
    SubmitterKeepsAgreement(s, i, a);
    SubmitterKeepsRuns(s, i, a);
  }

  lemma SubmitterKeepsRuns(s: State, i: nat, a: Submitting)
    requires RunsAtMostOnce(s) && SubmitterEnabled(s, i, a)
    ensures RunsAtMostOnce(SubmitterStep(s, i, a))
  {
    RunsCarryOver(s, SubmitterStep(s, i, a));
  }

  lemma WorkerKeepsInv(s: State, w: nat, a: Working)
    requires Inv(s) && WorkerEnabled(s, w, a)
    ensures var t := WorkerStep(s, w, a); Inv(t) && Extends(s.store, t.store)
  {
    WorkerKeepsPlaces(s, w, a);
    WorkerKeepsRuns(s, w, a);
    WorkerKeepsLocks(s, w, a);
    WorkerKeepsAgreement(s, w, a);
    WorkerFrame(s, w, a);
  }

  lemma OutsiderKeepsInv(s: State, a: Meddling)
    requires Inv(s)
    ensures Inv(OutsiderStep(s, a)) && OutsiderStep(s, a).store == s.store
  {
    var t := OutsiderStep(s, a);
    OutsiderKeepsLocks(s, a);
    SamePlaces(s, t);
    RunsCarryOver(s, t);
    forall j | j in t.subs ensures Knows(t, j) { KnowledgeCarriesOver(s, t, j); }
  }

  /** Every step of every thread keeps the invariant, unless it creates a job under a used id. */
  lemma StepKeepsInv(s: State, step: Step)
    requires Inv(s) && Enabled(s, step) && !ReusesId(s, step)
    ensures Inv(Apply(s, step)) && Extends(s.store, Apply(s, step).store)
  {
    match step
    case BySubmitter(i, a) => SubmitterKeepsInv(s, i, a);
    case ByWorker(w, a) => WorkerKeepsInv(s, w, a);
    case ByOutsider(a) => OutsiderKeepsInv(s, a);
  }

  /** Overwriting a stored job puts its id in two places at once, so the restriction on ids is exact. */
  lemma StepKeepsInvIff(s: State, step: Step)
    requires Inv(s) && Enabled(s, step)
    ensures Inv(Apply(s, step)) <==> !ReusesId(s, step)
  {
    if ReusesId(s, step) {
      var t := Apply(s, step);
      var id := s.subs[step.i].req.jobId;
      var p :| Holds(s, id, p);
      assert p != AtSubmission(step.i) && Holds(t, id, p) && Holds(t, id, AtSubmission(step.i));
    } else {
      StepKeepsInv(s, step);
    }
  }

  lemma {:induction false} SafetyFrom(s: State, steps: seq<Step>)
    requires Inv(s) && Schedule(s, steps) && NoReuse(s, steps)
    ensures Inv(Exec(s, steps)) && Extends(s.store, Exec(s, steps).store)
    decreases |steps|
  {
    if steps != [] {
      var t := Apply(s, steps[0]);
      StepKeepsInv(s, steps[0]);
      SafetyFrom(t, steps[1..]);
      ExtendsTransitive(s.store, t.store, Exec(s, steps).store);
    }
  }

  /** What the invariant says to an observer of one state. */
  ghost predicate Safe(s: State) {
    && (forall id :: id in s.store.jobs ==> exists p :: Holds(s, id, p) && forall q :: Holds(s, id, q) ==> q == p)
    && (forall id :: Runs(s, id) <= 1)
    && (forall v, w, uri :: HoldsLock(s, v, uri) && HoldsLock(s, w, uri) ==> v == w)
    && (s.workers.Keys == {} ==> forall uri :: uri in s.locks ==> !s.locks[uri].owner.ByJob?)
    && (forall i :: i in s.subs && s.subs[i].Answered? ==>
          var c := s.subs[i].req.commandId;
          c in s.store.byCommand && s.subs[i].told == s.store.byCommand[c] && s.subs[i].told in s.store.jobs)
    && (forall i, j :: i in s.subs && j in s.subs && SameAcceptance(s.subs[i], s.subs[j]) ==> i == j)
  }

  predicate Accepted(a: Submission) {
    a.Enqueuing? || (a.Answered? && a.accepted)
  }

  predicate SameAcceptance(a: Submission, b: Submission) {
    Accepted(a) && Accepted(b) && a.req.commandId == b.req.commandId
  }

  lemma InvIsSafe(s: State)
    requires Inv(s)
    ensures Safe(s)
  {
    forall id | id in s.store.jobs ensures exists p :: Holds(s, id, p) && forall q :: Holds(s, id, q) ==> q == p {
      var p :| Holds(s, id, p);
    }
    LocksAreExclusive(s);
    AnswersAgree(s);
  }

  lemma AnswersAgree(s: State)
    requires SubmissionsAgree(s) && Indexed(s.store)
    ensures forall i :: i in s.subs && s.subs[i].Answered? ==>
      var c := s.subs[i].req.commandId;
      c in s.store.byCommand && s.subs[i].told == s.store.byCommand[c] && s.subs[i].told in s.store.jobs
    ensures forall i, j :: i in s.subs && j in s.subs && SameAcceptance(s.subs[i], s.subs[j]) ==> i == j
  {
    forall i | i in s.subs ensures Knows(s, i) {}
  }

  lemma LocksAreExclusive(s: State)
    requires OnePlaceEach(s) && LocksMatch(s)
    ensures forall v, w, uri :: HoldsLock(s, v, uri) && HoldsLock(s, w, uri) ==> v == w
    ensures s.workers.Keys == {} ==> forall uri :: uri in s.locks ==> !s.locks[uri].owner.ByJob?
  {
    forall v, w, uri | HoldsLock(s, v, uri) && HoldsLock(s, w, uri) ensures v == w {
      assert Holds(s, s.workers[v].jobId, InFlight(v)) && Holds(s, s.workers[w].jobId, InFlight(w));
    }
    if s.workers.Keys == {} {
      assert forall w, uri :: !HoldsLock(s, w, uri);
    }
  }

  /** In every schedule that never reuses a job id: one place per job, one run per job, one holder per lock, one winner per command. */
  lemma DispatchIsSafe(steps: seq<Step>)
    requires Schedule(INITIAL, steps) && NoReuse(INITIAL, steps)
    ensures Safe(Exec(INITIAL, steps))
  {
    InitialInv();
    SafetyFrom(INITIAL, steps);
    InvIsSafe(Exec(INITIAL, steps));
  }

  lemma InitialInv()
    ensures Inv(INITIAL)
  {
  }

  /** A command, once bound, leads to the same job in every later state. */
  lemma CommandsAreNeverRebound(before: seq<Step>, after: seq<Step>, commandId: string)
    requires Schedule(INITIAL, before) && NoReuse(INITIAL, before)
    requires var s := Exec(INITIAL, before); Schedule(s, after) && NoReuse(s, after) && commandId in s.store.byCommand
    ensures var s := Exec(INITIAL, before); var t := Exec(s, after);
      commandId in t.store.byCommand && t.store.byCommand[commandId] == s.store.byCommand[commandId]
  {
    InitialInv();
    SafetyFrom(INITIAL, before);
    SafetyFrom(Exec(INITIAL, before), after);
  }

  // ----- the restriction on job ids is needed -----

  /** The schedule `steps` can be taken from `s` and leads to `t`. */
  ghost predicate Leads(s: State, steps: seq<Step>, t: State) {
    Schedule(s, steps) && Exec(s, steps) == t
  }

  lemma {:induction false} LeadsOn(s: State, steps: seq<Step>, t: State, step: Step)
    requires Leads(s, steps, t) && Enabled(t, step)
    ensures Leads(s, steps + [step], Apply(t, step))
    decreases |steps|
  {
    var all := steps + [step];
    if steps == [] {
      assert all[1..] == [];
    } else {
      assert all[0] == steps[0] && all[1..] == steps[1..] + [step];
      LeadsOn(Apply(s, steps[0]), steps[1..], t, step);
    }
  }

  /** The steps of a submission up to the creation of its job. */
  function CreationOf(i: nat, r: Request, now: int): seq<Step> {
    [BySubmitter(i, Submit(r)), BySubmitter(i, Check), BySubmitter(i, Create(now))]
  }

  function CreationAfter(s: State, i: nat, r: Request, now: int): State {
    s.(subs := s.subs[i := Enqueuing(r)], store := Created(s.store, NewJob(r), now), winner := s.winner[r.commandId := i])
  }

  lemma CreationLeads(s: State, steps: seq<Step>, t: State, i: nat, r: Request, now: int)
    requires Leads(s, steps, t) && i !in t.subs && ValidRequest(r) && r.commandId !in t.store.byCommand
    ensures Leads(s, steps + CreationOf(i, r, now), CreationAfter(t, i, r, now))
  {
    var one := Answer(t, i, Checking(r));
    var two := Answer(one, i, Creating(r));
    LeadsOn(s, steps, t, BySubmitter(i, Submit(r)));
    LeadsOn(s, steps + [BySubmitter(i, Submit(r))], one, BySubmitter(i, Check));
    var before := steps + [BySubmitter(i, Submit(r))] + [BySubmitter(i, Check)];
    LeadsOn(s, before, two, BySubmitter(i, Create(now)));
    assert before + [BySubmitter(i, Create(now))] == steps + CreationOf(i, r, now);
    assert Apply(two, BySubmitter(i, Create(now))) == CreationAfter(t, i, r, now) by {
      assert two.subs[i := Enqueuing(r)] == t.subs[i := Enqueuing(r)];
    }
  }

  /** Two requests with one job id and different commands: both are accepted, and the job is in two places. */
  lemma ReusedIdIsInTwoPlaces(first: Request, second: Request)
    requires ValidRequest(first) && ValidRequest(second)
    requires first.jobId == second.jobId && first.commandId != second.commandId
    ensures var steps := CreationOf(0, first, 0) + CreationOf(1, second, 0);
      Schedule(INITIAL, steps) && !NoReuse(INITIAL, steps) && !Safe(Exec(INITIAL, steps))
  {
    var steps := CreationOf(0, first, 0) + CreationOf(1, second, 0);
    assert Leads(INITIAL, [], INITIAL);
    CreationLeads(INITIAL, [], INITIAL, 0, first, 0);
    assert [] + CreationOf(0, first, 0) == CreationOf(0, first, 0);
    var middle := CreationAfter(INITIAL, 0, first, 0);
    CreationLeads(INITIAL, CreationOf(0, first, 0), middle, 1, second, 0);
    var last := CreationAfter(middle, 1, second, 0);
    assert Holds(last, first.jobId, AtSubmission(0)) && Holds(last, first.jobId, AtSubmission(1));
    assert first.jobId in last.store.jobs;
    if NoReuse(INITIAL, steps) {
      DispatchIsSafe(steps);
    }
  }
}
