/** What draining the queue does when nobody else acts, and how one execution refines the protocol. */
module DispatchDrain {
  import opened Basics
  import opened JobStore
  import opened LockManager
  import opened Dispatch
  import P = DispatchProtocol
  import O = DispatchOutcomes

  /** No job holds a lock, and no outsider's lock expires while the queue is drained. */
  ghost predicate Steady(t: Table, envs: nat -> Env) {
    && (forall uri :: uri in t ==> t[uri].owner.ByOther?)
    && (forall uri, j, k :: uri in t ==> Expired(t[uri], envs(j).acquiredAt) == Expired(t[uri], envs(k).acquiredAt))
  }

  /** `stuck` tells the jobs whose lock an outsider holds. */
  ghost predicate Tells(s: System, envs: nat -> Env, stuck: string -> bool) {
    forall id, k :: id in s.store.jobs ==> stuck(id) == Blocked(s, id, envs(k).acquiredAt)
  }

  lemma LocksComeBack(s: System, id: string, env: Env)
    requires id in s.store.jobs && !Blocked(s, id, env.acquiredAt)
    requires forall uri :: uri in s.locks ==> s.locks[uri].owner.ByOther?
    ensures var t := Executed(s, id, env).0;
      t.locks == if UriOf(s.store, id) == "" then s.locks else s.locks - {UriOf(s.store, id)}
  {
    O.RunsIff(s, id, env);
    O.RunTouchesOnly(s, id, env);
  }

  /** Executing a free job runs it, gives its lock back, and blocks and frees nobody. */
  lemma ExecutingFree(s: System, id: string, envs: nat -> Env, k: nat, stuck: string -> bool)
    requires Steady(s.locks, envs) && Tells(s, envs, stuck) && id in s.store.jobs && !stuck(id)
    ensures var (t, processed) := Executed(s, id, envs(k));
      && processed && Steady(t.locks, envs) && Tells(t, envs, stuck)
      && t.queue == s.queue && t.ran == s.ran + [id] && t.store.jobs.Keys == s.store.jobs.Keys
  {
    var t := Executed(s, id, envs(k)).0;
    LocksComeBack(s, id, envs(k));
    assert SameIdentities(s.store, t.store);
    forall x, j | x in t.store.jobs ensures stuck(x) == Blocked(t, x, envs(j).acquiredAt) {
      assert stuck(x) == Blocked(s, x, envs(j).acquiredAt) && stuck(id) == Blocked(s, id, envs(j).acquiredAt);
    }
  }

  ghost function Free(stuck: string -> bool): string -> bool {
    id => !stuck(id)
  }

  /** Once only stuck jobs are queued, the remaining cycles only turn the queue around. */
  lemma {:induction false} OnlyStuckLeft(s: System, envs: nat -> Env, k: nat, cap: nat, stuck: string -> bool)
    requires Tells(s, envs, stuck)
    requires forall id :: id in s.queue ==> id in s.store.jobs && stuck(id)
    ensures var (t, count) := Drained(s, envs, k, cap);
      count == 0 && t == s.(queue := t.queue) && multiset(t.queue) == multiset(s.queue)
    decreases cap - k
  {
    if k < cap && s.queue != [] {
      var next := Cycle(s, envs(k)).0;
      assert next == s.(queue := s.queue[1..] + [s.queue[0]]);
      assert s.queue == [s.queue[0]] + s.queue[1..];
      OnlyStuckLeft(next, envs, k + 1, cap, stuck);
    }
  }

  /** What draining from `s` must come to when `todo` has not been looked at and `parked` was put back behind it. */
  ghost predicate Comes(s: System, envs: nat -> Env, k: nat, cap: nat, stuck: string -> bool, todo: seq<string>, parked: seq<string>) {
    var (t, count) := Drained(s, envs, k, cap);
    && t.ran == s.ran + Filter(todo, Free(stuck))
    && count == |Filter(todo, Free(stuck))|
    && multiset(t.queue) == multiset(parked) + multiset(Filter(todo, stuck))
  }

  ghost predicate Pass(s: System, envs: nat -> Env, stuck: string -> bool, todo: seq<string>, parked: seq<string>) {
    && s.queue == todo + parked && Steady(s.locks, envs) && Tells(s, envs, stuck)
    && (forall id :: id in s.queue ==> id in s.store.jobs)
    && (forall id :: id in parked ==> stuck(id))
  }

  /** One cycle of the first pass. */
  lemma PassStep(s: System, envs: nat -> Env, k: nat, stuck: string -> bool, todo: seq<string>, parked: seq<string>)
    requires Pass(s, envs, stuck, todo, parked) && todo != []
    ensures var id := todo[0]; var (next, processed) := Cycle(s, envs(k));
      && processed == !stuck(id)
      && next.ran == (if stuck(id) then s.ran else s.ran + [id])
      && Pass(next, envs, stuck, todo[1..], if stuck(id) then parked + [id] else parked)
  {
    var id, rest := todo[0], todo[1..];
    var popped := s.(queue := s.queue[1..]);
    assert s.queue[1..] == rest + parked && id in s.queue;
    assert forall x, j :: Blocked(popped, x, envs(j).acquiredAt) == Blocked(s, x, envs(j).acquiredAt);
    if stuck(id) {
      assert Blocked(s, id, envs(k).acquiredAt);
      assert rest + parked + [id] == rest + (parked + [id]);
    } else {
      ExecutingFree(popped, id, envs, k, stuck);
    }
  }

  /** The books of one pass: what the head adds to runs, count and leftovers. */
  lemma Tally(todo: seq<string>, parked: seq<string>, stuck: string -> bool,
              ran: seq<string>, lastRan: seq<string>, left: seq<string>)
    requires todo != []
    requires lastRan == (if stuck(todo[0]) then ran else ran + [todo[0]]) + Filter(todo[1..], Free(stuck))
    requires multiset(left) ==
      multiset(if stuck(todo[0]) then parked + [todo[0]] else parked) + multiset(Filter(todo[1..], stuck))
    ensures lastRan == ran + Filter(todo, Free(stuck))
    ensures |Filter(todo, Free(stuck))| == |Filter(todo[1..], Free(stuck))| + if stuck(todo[0]) then 0 else 1
    ensures multiset(left) == multiset(parked) + multiset(Filter(todo, stuck))
  {
    var id, rest := todo[0], todo[1..];
    HeadFiltered(todo, stuck);
    HeadFiltered(todo, Free(stuck));
    Joins(id, stuck(id), parked, Filter(rest, stuck), ran, Filter(rest, Free(stuck)));
  }

  lemma HeadFiltered(todo: seq<string>, p: string -> bool)
    requires todo != []
    ensures Filter(todo, p) == if p(todo[0]) then [todo[0]] + Filter(todo[1..], p) else Filter(todo[1..], p)
  {
    assert todo == [todo[0]] + todo[1..];
    FilterCons(todo[0], todo[1..], p);
  }

  lemma Joins(id: string, b: bool, parked: seq<string>, stuckRest: seq<string>, ran: seq<string>, freeRest: seq<string>)
    ensures (if b then ran else ran + [id]) + freeRest == ran + if b then freeRest else [id] + freeRest
    ensures multiset(if b then parked + [id] else parked) + multiset(stuckRest)
         == multiset(parked) + multiset(if b then [id] + stuckRest else stuckRest)
  {
  }

  lemma {:induction false} FirstPass(
    s: System, envs: nat -> Env, k: nat, cap: nat, stuck: string -> bool, todo: seq<string>, parked: seq<string>)
    requires Pass(s, envs, stuck, todo, parked) && |todo| <= cap - k
    ensures Comes(s, envs, k, cap, stuck, todo, parked)
    decreases |todo|
  {
    if todo == [] {
      OnlyStuckLeft(s, envs, k, cap, stuck);
    } else {
      PassStep(s, envs, k, stuck, todo, parked);
      var (next, processed) := Cycle(s, envs(k));
      FirstPass(next, envs, k + 1, cap, stuck, todo[1..], if stuck(todo[0]) then parked + [todo[0]] else parked);
      var (t, count) := Drained(next, envs, k + 1, cap);
      Tally(todo, parked, stuck, s.ran, t.ran, t.queue);
    }
  }

  /** The jobs whose lock an outsider holds when draining begins. */
  function Stuck(s: System, envs: nat -> Env): string -> bool {
    id => Blocked(s, id, envs(0).acquiredAt)
  }

  lemma StuckTells(s: System, envs: nat -> Env)
    requires Steady(s.locks, envs)
    ensures Tells(s, envs, Stuck(s, envs))
  {
  }

  /**
   With no concurrent actor, draining runs exactly the queued jobs whose lock no outsider holds, once each and in
   queue order, returns their number, and leaves exactly the others queued: twice the store size is always enough.
   */
  lemma DrainRunsExactlyTheFreeJobs(s: System, envs: nat -> Env)
    requires Steady(s.locks, envs)
    requires Distinct(s.queue) && forall id :: id in s.queue ==> id in s.store.jobs
    ensures var (t, count) := Drained(s, envs, 0, 2 * |s.store.jobs|);
      var stuck := Stuck(s, envs);
      && t.ran == s.ran + Filter(s.queue, Free(stuck))
      && count == |Filter(s.queue, Free(stuck))|
      && multiset(t.queue) == multiset(Filter(s.queue, stuck))
  {
    StuckTells(s, envs);
    DistinctFits(s.queue, s.store.jobs.Keys);
    assert s.queue == s.queue + [];
    FirstPass(s, envs, 0, 2 * |s.store.jobs|, Stuck(s, envs), s.queue, []);
  }

  // ----- locks that expire while the queue is drained -----

  /** What ran since `s`, and what is left, is what was queued. */
  ghost predicate Conserves(s: System, t: System, count: nat) {
    && s.ran <= t.ran && count == |t.ran| - |s.ran|
    && multiset(t.ran[|s.ran|..]) + multiset(t.queue) == multiset(s.queue)
    && t.store.jobs.Keys == s.store.jobs.Keys
  }

  lemma CycleConserves(s: System, env: Env)
    requires s.queue != [] && s.queue[0] in s.store.jobs
    ensures var (t, processed) := Cycle(s, env); Conserves(s, t, if processed then 1 else 0)
    ensures var t := Cycle(s, env).0; t.queue == s.queue[1..] || t.queue == s.queue[1..] + [s.queue[0]]
  {
    var t := Cycle(s, env).0;
    assert s.queue == [s.queue[0]] + s.queue[1..];
    assert t.ran[|s.ran|..] == [] || t.ran[|s.ran|..] == [s.queue[0]];
  }

  lemma ConservesOn(s: System, t: System, u: System, m: nat, n: nat)
    requires Conserves(s, t, m) && Conserves(t, u, n)
    ensures Conserves(s, u, m + n)
  {
    assert u.ran[|s.ran|..] == t.ran[|s.ran|..] + u.ran[|t.ran|..];
  }

  /** Whatever locks expire or are held: each queued job runs at most once, and those that did not run are left, in some order. */
  lemma {:induction false} DrainConserves(s: System, envs: nat -> Env, k: nat, cap: nat)
    requires forall id :: id in s.queue ==> id in s.store.jobs
    ensures var (t, count) := Drained(s, envs, k, cap); Conserves(s, t, count)
    decreases cap - k
  {
    if k < cap && s.queue != [] {
      var (next, processed) := Cycle(s, envs(k));
      CycleConserves(s, envs(k));
      DrainConserves(next, envs, k + 1, cap);
      var (t, count) := Drained(next, envs, k + 1, cap);
      ConservesOn(s, next, t, if processed then 1 else 0, count);
    } else {
      assert s.ran[|s.ran|..] == [];
    }
  }

  function TimeOf(envs: nat -> Env, k: nat): int {
    envs(k).acquiredAt
  }

  ghost predicate Monotone(envs: nat -> Env) {
    forall j: nat, k: nat :: j <= k ==> TimeOf(envs, j) <= TimeOf(envs, k)
  }

  /** Executing one job blocks nobody, now or later. */
  lemma FreeStays(s: System, env: Env, id: string, later: int)
    requires s.queue != [] && env.acquiredAt <= later && !Blocked(s, id, env.acquiredAt)
    ensures !Blocked(Cycle(s, env).0, id, later)
  {
    var popped := s.(queue := s.queue[1..]);
    var t := Executed(popped, s.queue[0], env).0;
    assert UriOf(t.store, id) == UriOf(s.store, id);
    assert forall uri :: uri in t.locks ==> uri in s.locks && t.locks[uri] == s.locks[uri];
  }

  ghost predicate RanSince(s: System, t: System, id: string) {
    |s.ran| <= |t.ran| && id in t.ran[|s.ran|..]
  }

  lemma RanLater(s: System, next: System, t: System, id: string)
    requires s.ran <= next.ran <= t.ran && (RanSince(s, next, id) || RanSince(next, t, id))
    ensures RanSince(s, t, id)
  {
    assert t.ran[|s.ran|..] == next.ran[|s.ran|..] + t.ran[|next.ran|..];
  }

  lemma FreeHeadRuns(s: System, env: Env)
    requires s.queue != [] && s.queue[0] in s.store.jobs && !Blocked(s, s.queue[0], env.acquiredAt)
    ensures RanSince(s, Cycle(s, env).0, s.queue[0])
  {
    assert Cycle(s, env).0.ran == s.ran + [s.queue[0]];
  }

  lemma DrainedNext(s: System, envs: nat -> Env, k: nat, cap: nat)
    requires k < cap && s.queue != []
    ensures Drained(s, envs, k, cap).0 == Drained(Cycle(s, envs(k)).0, envs, k + 1, cap).0
  {
  }

  lemma {:induction false} FreeJobRuns(s: System, envs: nat -> Env, k: nat, cap: nat, p: nat, t: System)
    requires Monotone(envs) && (forall id :: id in s.queue ==> id in s.store.jobs)
    requires p < |s.queue| && p < cap - k && !Blocked(s, s.queue[p], envs(k).acquiredAt)
    requires t == Drained(s, envs, k, cap).0
    ensures RanSince(s, t, s.queue[p])
    decreases p
  {
    var id := s.queue[p];
    var next := Cycle(s, envs(k)).0;
    CycleConserves(s, envs(k));
    DrainedNext(s, envs, k, cap);
    DrainConserves(next, envs, k + 1, cap);
    if p == 0 {
      FreeHeadRuns(s, envs(k));
    } else {
      assert TimeOf(envs, k) <= TimeOf(envs, k + 1);
      FreeStays(s, envs(k), id, envs(k + 1).acquiredAt);
      assert next.queue[p - 1] == id;
      FreeJobRuns(next, envs, k + 1, cap, p - 1, t);
    }
    RanLater(s, next, t, id);
  }

  /**
   Also when locks of outsiders expire on the way: every queued job that is free when draining begins runs, each job runs
   at most once, and what is left is a permutation of the jobs that did not run.
   */
  lemma DrainRunsTheFreeJobsAnyway(s: System, envs: nat -> Env)
    requires Monotone(envs) && Distinct(s.queue) && forall id :: id in s.queue ==> id in s.store.jobs
    ensures var (t, count) := Drained(s, envs, 0, 2 * |s.store.jobs|);
      && Conserves(s, t, count)
      && forall id :: id in s.queue && !Stuck(s, envs)(id) ==> RanSince(s, t, id)
  {
    DrainConserves(s, envs, 0, 2 * |s.store.jobs|);
    DistinctFits(s.queue, s.store.jobs.Keys);
    var t := Drained(s, envs, 0, 2 * |s.store.jobs|).0;
    forall id | id in s.queue && !Stuck(s, envs)(id) ensures RanSince(s, t, id) {
      var p :| 0 <= p < |s.queue| && s.queue[p] == id;
      FreeJobRuns(s, envs, 0, 2 * |s.store.jobs|, p, t);
    }
  }
}
