/** The outbox under concurrent callers: each step below is one critical section of the file lock. */
module OutboxInterleaving {
  import opened Basics
  import opened Outbox

  /** `held` keeps, for each caller between the two sections of a marking, the copy it is about to write. */
  datatype State = State(file: File, held: map<nat, Item>)

  datatype Step =
    | Append(item: Item, now: real)
    | Fail(id: string, e: Failure, now: real, disk: bool)
    | Grab(t: nat, id: string, delivery: Delivery)
    | Rewrite(t: nat, now: real, disk: bool)

  predicate Enabled(s: State, step: Step) {
    match step
    case Append(_, _) => true
    case Fail(_, _, _, _) => true
    case Grab(t, _, _) => t !in s.held
    case Rewrite(t, _, _) => t in s.held
  }

  function Apply(s: State, step: Step): State
    requires Enabled(s, step)
  {
    match step
    case Append(item, now) => s.(file := s.file + [item.(updatedAt := now)])
    case Fail(id, e, now, disk) => if disk then s.(file := FailedFile(s.file, id, e, now)) else s
    case Grab(t, id, delivery) =>
      var k := Find(s.file, id);
      if k < |s.file| then s.(held := s.held[t := s.file[k].(delivery := delivery)]) else s
    case Rewrite(t, now, disk) =>
      State(if disk then Rewritten(s.file, s.held[t], now) else s.file, s.held - {t})
  }

  ghost predicate Schedule(s: State, steps: seq<Step>)
    decreases |steps|
  {
    steps == [] || (Enabled(s, steps[0]) && Schedule(Apply(s, steps[0]), steps[1..]))
  }

  ghost function Exec(s: State, steps: seq<Step>): State
    requires Schedule(s, steps)
    decreases |steps|
  {
    if steps == [] then s else Exec(Apply(s, steps[0]), steps[1..])
  }

  /** The step works on records with this id. */
  predicate Touches(s: State, step: Step, id: string) {
    match step
    case Append(item, _) => item.id == id
    case Fail(x, _, _, _) => x == id
    case Grab(_, x, _) => x == id
    case Rewrite(t, _, _) => t in s.held && s.held[t].id == id
  }

  // ----- frame -----

  /** Only the first record with `id` may differ, and records are only ever added behind the others. */
  ghost predicate OnlyFirst(f: File, g: File, id: string) {
    && |f| <= |g|
    && (forall k :: 0 <= k < |f| ==> g[k].id == f[k].id && (k != Find(f, id) ==> g[k] == f[k]))
  }

  /** An operation on one id neither changes, drops nor reorders another record, whatever other callers hold. */
  lemma StepTouchesOneRecord(s: State, step: Step, id: string)
    requires Enabled(s, step) && Touches(s, step, id)
    ensures OnlyFirst(s.file, Apply(s, step).file, id)
    ensures !step.Append? ==> |Apply(s, step).file| == |s.file|
  {
  }

  /** Every held copy still carries the body of the record it will replace. */
  ghost predicate CopiesCurrent(s: State) {
    forall t :: t in s.held ==>
      var k := Find(s.file, s.held[t].id);
      k < |s.file| && s.held[t].body == s.file[k].body
  }

  lemma FindInLonger(f: File, g: File, id: string)
    requires |f| <= |g| && (forall k :: 0 <= k < |f| ==> g[k].id == f[k].id) && Find(f, id) < |f|
    ensures Find(g, id) == Find(f, id)
  {
    FindIsFirst(g, id, Find(f, id));
  }

  /** `g` has every record of `f`, at its place, with its id and its body. */
  ghost predicate Carries(f: File, g: File) {
    |f| <= |g| && forall k :: 0 <= k < |f| ==> g[k].id == f[k].id && g[k].body == f[k].body
  }

  lemma StepCarriesFile(s: State, step: Step)
    requires CopiesCurrent(s) && Enabled(s, step)
    ensures Carries(s.file, Apply(s, step).file)
  {
  }

  lemma StepCarries(s: State, step: Step)
    requires CopiesCurrent(s) && Enabled(s, step)
    ensures Carries(s.file, Apply(s, step).file) && CopiesCurrent(Apply(s, step))
  {
    var u := Apply(s, step);
    StepCarriesFile(s, step);
    forall t | t in u.held ensures
      var k := Find(u.file, u.held[t].id);
      k < |u.file| && u.held[t].body == u.file[k].body
    {
      CopyIsCurrent(s, step, t);
    }
  }

  lemma CopyIsCurrent(s: State, step: Step, t: nat)
    requires CopiesCurrent(s) && Enabled(s, step) && Carries(s.file, Apply(s, step).file)
    requires t in Apply(s, step).held
    ensures var u := Apply(s, step); var k := Find(u.file, u.held[t].id);
      k < |u.file| && u.held[t].body == u.file[k].body
  {
    var u := Apply(s, step);
    if t in s.held && u.held[t] == s.held[t] {
      FindInLonger(s.file, u.file, s.held[t].id);
    }
  }

  /** Over every schedule no record is lost, moved, renamed or given another body. */
  lemma {:induction false} NothingIsLost(s: State, steps: seq<Step>)
    requires CopiesCurrent(s) && Schedule(s, steps)
    ensures Carries(s.file, Exec(s, steps).file) && CopiesCurrent(Exec(s, steps))
    decreases |steps|
  {
    if steps != [] {
      StepCarries(s, steps[0]);
      NothingIsLost(Apply(s, steps[0]), steps[1..]);
    }
  }

  // ----- attempt counts -----

  /** How many `Fail` steps on this id report success along the schedule. */
  ghost function Credits(s: State, steps: seq<Step>, id: string): nat
    requires Schedule(s, steps)
    decreases |steps|
  {
    if steps == [] then 0
    else
      (if steps[0].Fail? && steps[0].id == id && steps[0].disk && Find(s.file, id) < |s.file| then 1 else 0)
      + Credits(Apply(s, steps[0]), steps[1..], id)
  }

  /** No caller holds, or takes, a copy of this record. */
  ghost predicate NoMarking(s: State, steps: seq<Step>, id: string) {
    && (forall t :: t in s.held ==> s.held[t].id != id)
    && (forall i :: 0 <= i < |steps| && steps[i].Grab? ==> steps[i].id != id)
  }

  lemma UnmarkedStep(s: State, step: Step, id: string)
    requires Enabled(s, step) && Find(s.file, id) < |s.file|
    requires (forall t :: t in s.held ==> s.held[t].id != id) && (step.Grab? ==> step.id != id)
    ensures var t := Apply(s, step);
      && Find(t.file, id) == Find(s.file, id)
      && Attempts(t.file, id) == Attempts(s.file, id) + (if step.Fail? && step.id == id && step.disk then 1 else 0)
      && (forall c :: c in t.held ==> t.held[c].id != id)
  {
    var t := Apply(s, step);
    assert forall k :: 0 <= k < |s.file| ==> t.file[k].id == s.file[k].id;
    FindInLonger(s.file, t.file, id);
  }

  /** Concurrent failures of one record are all counted, as long as nobody marks that record. */
  lemma {:induction false} FailuresAreCounted(s: State, steps: seq<Step>, id: string)
    requires Schedule(s, steps) && NoMarking(s, steps, id) && Find(s.file, id) < |s.file|
    ensures Attempts(Exec(s, steps).file, id) == Attempts(s.file, id) + Credits(s, steps, id)
    ensures Find(Exec(s, steps).file, id) == Find(s.file, id)
    decreases |steps|
  {
    if steps != [] {
      UnmarkedStep(s, steps[0], id);
      FailuresAreCounted(Apply(s, steps[0]), steps[1..], id);
    }
  }

  /** A step of another caller that does not mark this record. */
  predicate StaysAway(step: Step, t: nat, id: string) {
    !(step.Grab? && (step.id == id || step.t == t)) && !(step.Rewrite? && step.t == t)
  }

  /** Where one caller marks `id` while the others take `during`. */
  ghost predicate MarkedDuring(s: State, t: nat, id: string, delivery: Delivery, during: seq<Step>) {
    && Find(s.file, id) < |s.file| && t !in s.held
    && (forall c :: c in s.held ==> s.held[c].id != id)
    && (forall i :: 0 <= i < |during| ==> StaysAway(during[i], t, id))
    && Schedule(Apply(s, Grab(t, id, delivery)), during)
  }

  lemma OthersLeaveCopy(s: State, step: Step, t: nat, id: string)
    requires Enabled(s, step) && t in s.held && StaysAway(step, t, id)
    requires forall c :: c in s.held && c != t ==> s.held[c].id != id
    ensures var u := Apply(s, step);
      t in u.held && u.held[t] == s.held[t] && (forall c :: c in u.held && c != t ==> u.held[c].id != id)
  {
  }

  lemma OthersCount(s: State, step: Step, t: nat, id: string)
    requires Enabled(s, step) && t in s.held && StaysAway(step, t, id) && Find(s.file, id) < |s.file|
    requires forall c :: c in s.held && c != t ==> s.held[c].id != id
    ensures var u := Apply(s, step);
      && |s.file| <= |u.file| && Find(u.file, id) == Find(s.file, id)
      && Attempts(u.file, id) == Attempts(s.file, id) + (if step.Fail? && step.id == id && step.disk then 1 else 0)
  {
    var u := Apply(s, step);
    assert forall k :: 0 <= k < |s.file| ==> u.file[k].id == s.file[k].id;
    FindInLonger(s.file, u.file, id);
  }

  lemma {:induction false} CopyStaysStale(s: State, steps: seq<Step>, t: nat, id: string)
    requires Schedule(s, steps) && t in s.held && s.held[t].id == id && Find(s.file, id) < |s.file|
    requires forall c :: c in s.held && c != t ==> s.held[c].id != id
    requires forall i :: 0 <= i < |steps| ==> StaysAway(steps[i], t, id)
    ensures var u := Exec(s, steps);
      && t in u.held && u.held[t] == s.held[t] && |s.file| <= |u.file| && Find(u.file, id) == Find(s.file, id)
      && Attempts(u.file, id) == Attempts(s.file, id) + Credits(s, steps, id)
    decreases |steps|
  {
    if steps != [] {
      OthersLeaveCopy(s, steps[0], t, id);
      OthersCount(s, steps[0], t, id);
      CopyStaysStale(Apply(s, steps[0]), steps[1..], t, id);
    }
  }

  lemma RewriteInstalls(f: File, item: Item, now: real)
    requires Find(f, item.id) < |f|
    ensures var g := Rewritten(f, item, now); var k := Find(g, item.id);
      k == Find(f, item.id) && k < |g| && g[k] == item.(updatedAt := now)
  {
    FindIsFirst(Rewritten(f, item, now), item.id, Find(f, item.id));
  }

  /**
   The split marking overwrites the count with the one it read: it loses exactly the failures credited between its
   two sections, so the marking is harmless if and only if there was none.
   */
  lemma MarkingLosesTheFailuresInBetween(s: State, t: nat, id: string, delivery: Delivery, during: seq<Step>, now: real)
    requires MarkedDuring(s, t, id, delivery, during)
    ensures var grabbed := Apply(s, Grab(t, id, delivery)); var u := Exec(grabbed, during);
      && Enabled(u, Rewrite(t, now, true))
      && var after := Apply(u, Rewrite(t, now, true)).file;
         && Find(after, id) < |after| && Attempts(after, id) == Attempts(s.file, id)
         && Attempts(u.file, id) == Attempts(after, id) + Credits(grabbed, during, id)
         && after[Find(after, id)].delivery == delivery
  {
    var grabbed := Apply(s, Grab(t, id, delivery));
    CopyStaysStale(grabbed, during, t, id);
    var u := Exec(grabbed, during);
    RewriteInstalls(u.file, u.held[t], now);
  }
}
