/** The route guard: it samples the route set and reports every change against the last reported state. */
module RouteGuard {
  import opened Basics

  // ----- sorted reports -----

  predicate Less(s: string, t: string) {
    if t == "" then false
    else if s == "" then true
    else s[0] < t[0] || (s[0] == t[0] && Less(s[1..], t[1..]))
  }

  lemma {:induction false} LessIsTotal(s: string, t: string)
    ensures s == t || Less(s, t) || Less(t, s)
    ensures !(Less(s, t) && Less(t, s)) && !(s == t && Less(s, t))
  {
    if s != "" && t != "" && s[0] == t[0] {
      LessIsTotal(s[1..], t[1..]);
      assert s == [s[0]] + s[1..] && t == [t[0]] + t[1..];
    }
  }

  lemma {:induction false} LessIsTransitive(s: string, t: string, u: string)
    requires Less(s, t) && Less(t, u)
    ensures Less(s, u)
  {
    if s != "" && s[0] == t[0] && t[0] == u[0] {
      LessIsTransitive(s[1..], t[1..], u[1..]);
    }
  }

  predicate IsLeast(s: set<string>, x: string) {
    x in s && forall y :: y in s && y != x ==> Less(x, y)
  }

  lemma {:induction false} HasLeast(s: set<string>)
    requires s != {}
    ensures exists x :: IsLeast(s, x)
    decreases |s|
  {
    var a :| a in s;
    if s == {a} {
      assert IsLeast(s, a);
    } else {
      var rest := s - {a};
      assert rest != {} by { assert rest + {a} == s; }
      HasLeast(rest);
      var b :| IsLeast(rest, b);
      LessIsTotal(a, b);
      if Less(a, b) {
        forall y | y in s && y != a ensures Less(a, y) {
          if y != b { LessIsTransitive(a, b, y); }
        }
        assert IsLeast(s, a);
      } else {
        assert IsLeast(s, b);
      }
    }
  }

  lemma LeastIsUnique(s: set<string>)
    ensures forall x, y :: IsLeast(s, x) && IsLeast(s, y) ==> x == y
  {
    forall x, y | IsLeast(s, x) && IsLeast(s, y) ensures x == y {
      LessIsTotal(x, y);
    }
  }

  /** The elements of a set in increasing order. */
  function Sorted(s: set<string>): (r: seq<string>)
    ensures forall x :: x in r <==> x in s
    ensures |r| == |s|
    decreases |s|
  {
    if s == {} then []
    else
      HasLeast(s);
      LeastIsUnique(s);
      var x :| x in s && IsLeast(s, x);
      [x] + Sorted(s - {x})
  }

  const ADDED := "[ADDED] "
  const REMOVED := "[REMOVED] "

  function Labelled(mark: string, routes: seq<string>): (r: seq<string>)
    ensures |r| == |routes|
  {
    seq(|routes|, i requires 0 <= i < |routes| => mark + routes[i])
  }

  /** The described changes from one route set to another. */
  function Diff(before: set<string>, after: set<string>): seq<string> {
    Labelled(ADDED, Sorted(after - before)) + Labelled(REMOVED, Sorted(before - after))
  }

  /** What a report looks like: first what came, then what went, each in ascending order and under its label. */
  lemma ReportIs(before: set<string>, after: set<string>)
    ensures var d, n := Diff(before, after), |after - before|;
      && |d| == n + |before - after|
      && (forall i :: 0 <= i < n ==> Tells(d[i], "[ADDED] ", after - before))
      && (forall i :: n <= i < |d| ==> Tells(d[i], "[REMOVED] ", before - after))
      && (forall i, j :: 0 <= i < j < n ==> Less(d[i][|"[ADDED] "|..], d[j][|"[ADDED] "|..]))
      && (forall i, j :: n <= i < j < |d| ==> Less(d[i][|"[REMOVED] "|..], d[j][|"[REMOVED] "|..]))
  {
    PartIs("[ADDED] ", after - before);
    PartIs("[REMOVED] ", before - after);
    assert Diff(before, after) == Labelled("[ADDED] ", Sorted(after - before)) + Labelled("[REMOVED] ", Sorted(before - after));
  }

  lemma PartIs(mark: string, routes: set<string>)
    ensures var d := Labelled(mark, Sorted(routes));
      && |d| == |routes| && (forall i :: 0 <= i < |d| ==> Tells(d[i], mark, routes))
      && (forall i, j :: 0 <= i < j < |d| ==> Less(d[i][|mark|..], d[j][|mark|..]))
  {
    var d, a := Labelled(mark, Sorted(routes)), Sorted(routes);
    SortedRises(routes);
    forall i | 0 <= i < |d| ensures d[i][|mark|..] == a[i] && Tells(d[i], mark, routes) {
      assert d[i] == mark + a[i] && a[i] in a;
    }
  }

  predicate Tells(change: string, mark: string, routes: set<string>) {
    mark <= change && change[|mark|..] in routes
  }

  lemma {:induction false} SortedRises(s: set<string>)
    ensures forall i, j :: 0 <= i < j < |Sorted(s)| ==> Less(Sorted(s)[i], Sorted(s)[j])
    decreases |s|
  {
    if s != {} {
      HasLeast(s);
      var x :| x in s && IsLeast(s, x);
      LeastIsUnique(s);
      var rest := Sorted(s - {x});
      SortedRises(s - {x});
      assert Sorted(s) == [x] + rest;
      forall j | 0 <= j < |rest| ensures Less(x, rest[j]) {
        assert rest[j] in rest;
      }
    }
  }

  /** The order is that of the first character that differs; a beginning comes first. */
  lemma LessIs(s: string, t: string, k: nat)
    requires k <= |s| && k < |t| && s[..k] == t[..k]
    ensures k == |s| ==> Less(s, t)
    ensures k < |s| && s[k] < t[k] ==> Less(s, t)
  {
    if k > 0 {
      assert s[0] == s[..k][0] == t[..k][0] == t[0];
      assert s[1..][..k - 1] == s[..k][1..] && t[1..][..k - 1] == t[..k][1..];
      LessIs(s[1..], t[1..], k - 1);
    }
  }

  // ----- reading a report back -----

  function Change(routes: set<string>, change: string): set<string> {
    if ADDED <= change then routes + {change[|ADDED|..]}
    else if REMOVED <= change then routes - {change[|REMOVED|..]}
    else routes
  }

  function Fold(routes: set<string>, changes: seq<string>): set<string> {
    if changes == [] then routes else Change(Fold(routes, changes[..|changes| - 1]), changes[|changes| - 1])
  }

  lemma LabelsRead(x: string)
    ensures ADDED <= ADDED + x && (ADDED + x)[|ADDED|..] == x
    ensures REMOVED <= REMOVED + x && (REMOVED + x)[|REMOVED|..] == x && !(ADDED <= REMOVED + x)
    ensures forall y :: ADDED + x != REMOVED + y
  {
    assert (REMOVED + x)[1] == 'R' && ADDED[1] == 'A';
    forall y ensures ADDED + x != REMOVED + y {
      assert (ADDED + x)[1] == 'A' && (REMOVED + y)[1] == 'R';
    }
  }

  lemma {:induction false} FoldAppend(routes: set<string>, a: seq<string>, b: seq<string>)
    ensures Fold(routes, a + b) == Fold(Fold(routes, a), b)
  {
    if b == [] {
      assert a + b == a;
    } else {
      assert (a + b)[..|a + b| - 1] == a + b[..|b| - 1];
      FoldAppend(routes, a, b[..|b| - 1]);
    }
  }

  lemma {:induction false} FoldAdded(routes: set<string>, added: seq<string>)
    ensures Fold(routes, Labelled(ADDED, added)) == routes + set x | x in added
  {
    if added != [] {
      var n := |added| - 1;
      FoldAdded(routes, added[..n]);
      assert Labelled(ADDED, added)[..n] == Labelled(ADDED, added[..n]);
      LabelsRead(added[n]);
    }
  }

  lemma {:induction false} FoldRemoved(routes: set<string>, removed: seq<string>)
    ensures Fold(routes, Labelled(REMOVED, removed)) == routes - set x | x in removed
  {
    if removed != [] {
      var n := |removed| - 1;
      FoldRemoved(routes, removed[..n]);
      assert Labelled(REMOVED, removed)[..n] == Labelled(REMOVED, removed[..n]);
      LabelsRead(removed[n]);
    }
  }

  /** A report says exactly how to get from the old routes to the new ones. */
  lemma FoldingADiffGivesTheNewRoutes(before: set<string>, after: set<string>)
    ensures Fold(before, Diff(before, after)) == after
  {
    var a, r := Sorted(after - before), Sorted(before - after);
    FoldAppend(before, Labelled(ADDED, a), Labelled(REMOVED, r));
    FoldAdded(before, a);
    FoldRemoved(before + (after - before), r);
    assert (set x | x in a) == after - before && (set x | x in r) == before - after;
  }

  lemma DiffIsEmptyIff(before: set<string>, after: set<string>)
    ensures Diff(before, after) == [] <==> before == after
  {
    assert Diff(before, after) == [] <==> |Sorted(after - before)| == 0 && |Sorted(before - after)| == 0;
    assert before == after <==> after - before == {} && before - after == {};
  }

  lemma InDiff(before: set<string>, after: set<string>, x: string)
    ensures ADDED + x in Diff(before, after) <==> x in after - before
    ensures REMOVED + x in Diff(before, after) <==> x in before - after
  {
    var a, r := Sorted(after - before), Sorted(before - after);
    InLabelled(ADDED, a, x);
    InLabelled(REMOVED, r, x);
    forall y ensures ADDED + x != REMOVED + y && REMOVED + x != ADDED + y { LabelsRead(x); LabelsRead(y); }
    OnlyLabelled(ADDED, a, REMOVED + x);
    OnlyLabelled(REMOVED, r, ADDED + x);
  }

  lemma InLabelled(mark: string, routes: seq<string>, x: string)
    ensures mark + x in Labelled(mark, routes) <==> x in routes
  {
    if mark + x in Labelled(mark, routes) {
      var i :| 0 <= i < |routes| && Labelled(mark, routes)[i] == mark + x;
      assert (mark + routes[i])[|mark|..] == routes[i] && (mark + x)[|mark|..] == x;
    }
    if x in routes {
      var i :| 0 <= i < |routes| && routes[i] == x;
      assert Labelled(mark, routes)[i] == mark + x;
    }
  }

  lemma OnlyLabelled(mark: string, routes: seq<string>, c: string)
    requires forall y :: mark + y != c
    ensures c !in Labelled(mark, routes)
  {
  }

  /** Two changes in a row never read the same. */
  lemma SuccessiveDiffsDiffer(a: set<string>, b: set<string>, c: set<string>)
    requires Diff(a, b) == Diff(b, c)
    ensures a == b
  {
    forall x ensures x !in b - a && x !in a - b {
      InDiff(a, b, x);
      InDiff(b, c, x);
    }
    assert b - a == {} && a - b == {};
  }

  // ----- the guard -----

  datatype Guard = Guard(base: set<string>, signature: seq<string>)

  /** One sample: the guard afterwards, and the report if one was made. */
  function Sampled(g: Guard, current: set<string>, raises: bool): (Guard, Option<seq<string>>) {
    var changes := Diff(g.base, current);
    if changes == [] || changes == g.signature then (g, None)
    else (Guard(if raises then g.base else current, changes), Some(changes))
  }

  function Run(g: Guard, samples: seq<set<string>>): Guard {
    if samples == [] then g else Sampled(Run(g, samples[..|samples| - 1]), samples[|samples| - 1], false).0
  }

  /** All reported changes, one after the other. */
  function Reports(g: Guard, samples: seq<set<string>>): seq<string> {
    if samples == [] then []
    else
      var before := samples[..|samples| - 1];
      var r := Sampled(Run(g, before), samples[|samples| - 1], false).1;
      Reports(g, before) + if r.Some? then r.value else []
  }

  /** The signature belongs to the step that led to the current base. */
  ghost predicate Fresh(g: Guard) {
    g.signature == [] || exists earlier :: Diff(earlier, g.base) == g.signature
  }

  /** While the callback returns, a sample is reported exactly when it differs from the base, so no change is dropped as a duplicate. */
  lemma SampleIsReportedIff(g: Guard, current: set<string>)
    requires Fresh(g)
    ensures var (h, r) := Sampled(g, current, false);
      Fresh(h) && h.base == current && (r.Some? <==> current != g.base) && (r.Some? ==> r.value == Diff(g.base, current))
  {
    DiffIsEmptyIff(g.base, current);
    if current != g.base && Diff(g.base, current) == g.signature {
      var earlier :| Diff(earlier, g.base) == g.signature;
      SuccessiveDiffsDiffer(earlier, g.base, current);
      DiffIsEmptyIff(earlier, g.base);
    }
  }

  function Started(routes: set<string>): Guard {
    Guard(routes, [])
  }

  /** From the first start on, the reports folded over the first snapshot always give the current base, which is the last sample. */
  lemma {:induction false} ReportsTellEverything(first: set<string>, samples: seq<set<string>>)
    ensures var g := Run(Started(first), samples);
      && Fresh(g) && Fold(first, Reports(Started(first), samples)) == g.base
      && g.base == if samples == [] then first else samples[|samples| - 1]
  {
    if samples != [] {
      var before, last := samples[..|samples| - 1], samples[|samples| - 1];
      ReportsTellEverything(first, before);
      var g := Run(Started(first), before);
      SampleIsReportedIff(g, last);
      FoldingADiffGivesTheNewRoutes(g.base, last);
      FoldAppend(first, Reports(Started(first), before), Diff(g.base, last));
      FoldAppend(first, Reports(Started(first), before), []);
    }
  }

  // ----- raising callbacks and restarts -----

  /** The signature reads as a change of the current base. */
  predicate Fits(g: Guard) {
    g.signature == Diff(g.base, Fold(g.base, g.signature))
  }

  /** In any state, a sample goes unreported exactly when it equals the base or is what a fitting signature makes of it. */
  lemma UnreportedIff(g: Guard, current: set<string>, raises: bool)
    ensures Sampled(g, current, raises).1.None? <==>
      current == g.base || (Fits(g) && current == Fold(g.base, g.signature))
  {
    DiffIsEmptyIff(g.base, current);
    FoldingADiffGivesTheNewRoutes(g.base, current);
  }

  /** A turn of the loop, with a callback that may raise, or a restart that takes a new base and keeps the signature. */
  datatype Event = Turn(current: set<string>, raises: bool) | Restart(routes: set<string>)

  /** A change of the route set. */
  datatype Move = Move(before: set<string>, after: set<string>)

  /** The guard after some events, and the change it reported last. */
  datatype Trace = Trace(guard: Guard, last: Option<Move>)

  function After(first: set<string>, events: seq<Event>): Trace {
    if events == [] then Trace(Started(first), None)
    else
      var t := After(first, events[..|events| - 1]);
      match events[|events| - 1]
      case Restart(routes) => Trace(Guard(routes, t.guard.signature), t.last)
      case Turn(current, raises) =>
        var (g, report) := Sampled(t.guard, current, raises);
        Trace(g, if report.Some? then Some(Move(t.guard.base, current)) else t.last)
  }

  /** The same routes come and the same routes go. */
  predicate ReadsAlike(m: Move, n: Move) {
    m.after - m.before == n.after - n.before && m.before - m.after == n.before - n.after
  }

  lemma DiffsEqualIff(m: Move, n: Move)
    ensures Diff(m.before, m.after) == Diff(n.before, n.after) <==> ReadsAlike(m, n)
  {
    if Diff(m.before, m.after) == Diff(n.before, n.after) {
      forall x ensures x in m.after - m.before <==> x in n.after - n.before {
        InDiff(m.before, m.after, x);
        InDiff(n.before, n.after, x);
      }
      forall x ensures x in m.before - m.after <==> x in n.before - n.after {
        InDiff(m.before, m.after, x);
        InDiff(n.before, n.after, x);
      }
    }
  }

  lemma {:induction false} SignatureIsLastReport(first: set<string>, events: seq<Event>)
    ensures var t := After(first, events);
      t.guard.signature == if t.last.Some? then Diff(t.last.value.before, t.last.value.after) else []
  {
    if events != [] {
      SignatureIsLastReport(first, events[..|events| - 1]);
    }
  }

  /**
   In every run, whatever callbacks raise and however often the guard is restarted: a sample goes unreported exactly when
   it equals the base or changes it the way the last report did.
   */
  lemma RunHidesIff(first: set<string>, events: seq<Event>, current: set<string>, raises: bool)
    ensures var t := After(first, events);
      Sampled(t.guard, current, raises).1.None? <==>
        current == t.guard.base || (t.last.Some? && ReadsAlike(t.last.value, Move(t.guard.base, current)))
  {
    var t := After(first, events);
    SignatureIsLastReport(first, events);
    DiffIsEmptyIff(t.guard.base, current);
    if t.last.Some? {
      DiffsEqualIff(t.last.value, Move(t.guard.base, current));
    }
  }

  /** The snapshot of the last start, and the changes reported since then by callbacks that returned. */
  datatype Told = Told(start: set<string>, changes: seq<string>)

  function ToldBy(first: set<string>, events: seq<Event>): Told {
    if events == [] then Told(first, [])
    else
      var before := events[..|events| - 1];
      var told := ToldBy(first, before);
      match events[|events| - 1]
      case Restart(routes) => Told(routes, [])
      case Turn(current, raises) =>
        var report := Sampled(After(first, before).guard, current, raises).1;
        if report.Some? && !raises then Told(told.start, told.changes + report.value) else told
  }

  /** In every run, the changes that callbacks took, folded over the last snapshot of a start, give the current base. */
  lemma {:induction false} TakenReportsGiveTheBase(first: set<string>, events: seq<Event>)
    ensures var told := ToldBy(first, events); Fold(told.start, told.changes) == After(first, events).guard.base
  {
    if events != [] {
      var before, last := events[..|events| - 1], events[|events| - 1];
      TakenReportsGiveTheBase(first, before);
      if last.Turn? {
        var g, told := After(first, before).guard, ToldBy(first, before);
        FoldAppend(told.start, told.changes, Diff(g.base, last.current));
        FoldingADiffGivesTheNewRoutes(g.base, last.current);
      }
    }
  }

  /** A change is reported and undone, and the guard is restarted: the change coming again is not reported. */
  lemma RestartHidesAReturningChange(base: set<string>, changed: set<string>)
    requires changed != base
    ensures var events := [Turn(changed, false), Restart(base)];
      After(base, events).guard.base == base && Sampled(After(base, events).guard, changed, false).1.None?
  {
    var events := [Turn(changed, false), Restart(base)];
    assert events[..1] == [Turn(changed, false)] && [Turn(changed, false)][..0] == [];
    DiffIsEmptyIff(base, changed);
    assert After(base, [Turn(changed, false)]).guard.signature == Diff(base, changed);
    assert After(base, events).guard == Guard(base, Diff(base, changed));
  }

  /** A change that comes, goes and comes again is reported only once when the first callback raises. */
  lemma RaisingCallbackHidesAReturningChange(base: set<string>, changed: set<string>)
    requires changed != base
    ensures var (g1, r1) := Sampled(Started(base), changed, true);
      var (g2, r2) := Sampled(g1, base, false);
      var (g3, r3) := Sampled(g2, changed, false);
      r1.Some? && r2.None? && r3.None? && g3.base == base
  {
    DiffIsEmptyIff(base, changed);
    DiffIsEmptyIff(base, base);
  }

  class Monitor {
    var base: set<string>
    var signature: seq<string>
    var reported: seq<seq<string>>

    function State(): Guard
      reads this
    {
      Guard(base, signature)
    }

    constructor ()
      ensures State() == Guard({}, []) && reported == []
    {
      base, signature, reported := {}, [], [];
    }

    /** A start takes a new base and keeps the signature of an earlier run. */
    method Start(routes: set<string>)
      modifies this
      ensures State() == Guard(routes, old(signature)) && reported == old(reported)
    {
      base := routes;
    }

    /** One turn of the monitoring loop; `raises` tells whether the callback fails after it was told. */
    method Sample(current: set<string>, raises: bool)
      modifies this
      ensures var (g, r) := Sampled(old(State()), current, raises);
        State() == g && reported == if r.Some? then old(reported) + [r.value] else old(reported)
    {
      var changes := Diff(base, current);
      if changes != [] {
        if changes == signature {
          return;
        }
        signature := changes;
        reported := reported + [changes];
        if raises {
          return;
        }
        base := current;
      }
    }
  }
}
