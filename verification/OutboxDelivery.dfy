/**
 The retry budget. A delivery starts with a record of its own or with one that `GetPending` would return, and ends by
 marking the record sent, in two sections, by marking it failed, in one, or by an exception. Nothing keeps two callers
 from delivering one record at a time. Time only moves forward.
 */
module OutboxDelivery {
  import opened Basics
  import opened Outbox

  /** A delivery under way, and the copy it holds once it has begun to mark its record sent. */
  datatype Delivering = Sending(id: string) | Confirming(copy: Item)

  function IdOf(d: Delivering): string {
    if d.Sending? then d.id else d.copy.id
  }

  /** `active` tells what each caller is delivering, `failedAt` when each record last failed. */
  datatype State = State(file: File, now: real, active: map<nat, Delivering>, failedAt: map<string, real>)

  const EMPTY := State([], 0.0, map[], map[])

  datatype Step =
    | Tick(to: real)
    | Append(t: nat, id: string, body: string, configured: bool)
    | Start(t: nat, id: string)
    | Fail(t: nat, e: Failure)
    | GrabSent(t: nat)
    | WriteSent(t: nat)
    | Abandon(t: nat)

  function Fresh(id: string, body: string, configured: bool, now: real): Item {
    Item(id, body, if configured then PENDING else URL_NOT_CONFIGURED, 0, 0, "", 0.0, now)
  }

  predicate Enabled(s: State, step: Step) {
    match step
    case Tick(to) => s.now <= to
    case Append(t, id, _, _) => t !in s.active && Find(s.file, id) == |s.file|
    case Start(t, id) => t !in s.active && var k := Find(s.file, id); k < |s.file| && Due(s.file[k], s.now)
    case Fail(t, _) => t in s.active && s.active[t].Sending?
    case GrabSent(t) => t in s.active && s.active[t].Sending? && Find(s.file, s.active[t].id) < |s.file|
    case WriteSent(t) => t in s.active && s.active[t].Confirming?
    case Abandon(t) => t in s.active
  }

  function NextFile(s: State, step: Step): File
    requires Enabled(s, step)
  {
    if step.Append? then s.file + [Fresh(step.id, step.body, step.configured, s.now)]
    else if step.Fail? then FailedFile(s.file, s.active[step.t].id, step.e, s.now)
    else if step.WriteSent? then Rewritten(s.file, s.active[step.t].copy, s.now)
    else s.file
  }

  /** Appending starts a delivery at once when there is a URL to deliver to. */
  function NextActive(s: State, step: Step): map<nat, Delivering>
    requires Enabled(s, step)
  {
    if step.Tick? then s.active
    else if step.Start? || (step.Append? && step.configured) then s.active[step.t := Sending(step.id)]
    else if step.Append? then s.active
    else if step.GrabSent? then
      s.active[step.t := Confirming(s.file[Find(s.file, s.active[step.t].id)].(delivery := SENT))]
    else s.active - {step.t}
  }

  function Apply(s: State, step: Step): State
    requires Enabled(s, step)
  {
    State(NextFile(s, step),
          if step.Tick? then step.to else s.now,
          NextActive(s, step),
          if step.Fail? then s.failedAt[s.active[step.t].id := s.now] else s.failedAt)
  }

  ghost predicate Schedule(s: State, steps: seq<Step>)
    decreases |steps|
  {
    steps == [] || (Enabled(s, steps[0]) && Schedule(Apply(s, steps[0]), steps[1..]))
  }

  ghost function Exec(s: State, steps: seq<Step>): State
    requires Schedule(s, steps)
    decreases |steps|
  {
    if steps == [] then s else Exec(Apply(s, steps[0]), steps[1..])
  }

  lemma Prepend(s: State, step: Step, rest: seq<Step>)
    requires Enabled(s, step) && Schedule(Apply(s, step), rest)
    ensures Schedule(s, [step] + rest) && Exec(s, [step] + rest) == Exec(Apply(s, step), rest)
  {
    assert ([step] + rest)[1..] == rest;
  }

  predicate Open(d: Delivery) {
    d == PENDING || d == FAILED_RETRYABLE
  }

  // ----- what every schedule keeps -----

  predicate RecordOk(s: State, item: Item) {
    match item.delivery
    case PENDING => item.attempts == 0 && item.nextRetryAt == 0.0
    case FAILED_RETRYABLE =>
      && 1 <= item.attempts < MAX_RETRY_ATTEMPTS && item.id in s.failedAt
      && item.nextRetryAt == s.failedAt[item.id] + Backoff(item.attempts) && item.nextRetryAt > 0.0
    case FAILED_FINAL => 1 <= item.attempts
    case SENT => true
    case URL_NOT_CONFIGURED => item.attempts == 0
    case SENDING => false
  }

  predicate DeliveryOk(s: State, d: Delivering) {
    var k := Find(s.file, IdOf(d));
    k < |s.file| && s.file[k].delivery != URL_NOT_CONFIGURED && (d.Confirming? ==> d.copy.delivery == SENT)
  }

  ghost predicate UniqueIds(f: File) {
    forall j, k :: 0 <= j < k < |f| ==> f[j].id != f[k].id
  }

  ghost predicate Inv(s: State) {
    && s.now >= 0.0 && UniqueIds(s.file)
    && (forall k :: 0 <= k < |s.file| ==> RecordOk(s, s.file[k]))
    && (forall t :: t in s.active ==> DeliveryOk(s, s.active[t]))
  }

  predicate FailsOn(s: State, step: Step, id: string) {
    step.Fail? && step.t in s.active && IdOf(s.active[step.t]) == id
  }

  predicate WritesOn(s: State, step: Step, id: string) {
    step.WriteSent? && step.t in s.active && s.active[step.t].Confirming? && s.active[step.t].copy.id == id
  }

  /** What a step makes of a record. */
  function ItemAfter(s: State, step: Step, item: Item): Item {
    if FailsOn(s, step, item.id) then Failed(item, step.e, s.now)
    else if WritesOn(s, step, item.id) then s.active[step.t].copy.(updatedAt := s.now)
    else item
  }

  lemma FileAfter(s: State, step: Step, k: nat)
    requires UniqueIds(s.file) && Enabled(s, step) && k < |s.file|
    ensures var t := Apply(s, step);
      && k < |t.file| <= |s.file| + 1 && t.file[k] == ItemAfter(s, step, s.file[k]) && t.file[k].id == s.file[k].id
  {
    FindIsFirst(s.file, s.file[k].id, k);
  }

  lemma RecordAfter(s: State, step: Step, id: string)
    requires UniqueIds(s.file) && Enabled(s, step) && Find(s.file, id) < |s.file|
    ensures var t := Apply(s, step); var k := Find(s.file, id);
      && Find(t.file, id) == k < |t.file| && t.file[k] == ItemAfter(s, step, s.file[k])
  {
    var t := Apply(s, step);
    var k := Find(s.file, id);
    forall j | 0 <= j <= k ensures j < |t.file| && t.file[j].id == s.file[j].id {
      FileAfter(s, step, j);
    }
    FileAfter(s, step, k);
    FindIsFirst(t.file, id, k);
  }

  lemma IdsStayDistinct(s: State, step: Step)
    requires UniqueIds(s.file) && Enabled(s, step)
    ensures UniqueIds(Apply(s, step).file)
  {
    var t := Apply(s, step);
    forall k | 0 <= k < |s.file| ensures k < |t.file| && t.file[k].id == s.file[k].id {
      FileAfter(s, step, k);
    }
    forall j, k | 0 <= j < k < |t.file| ensures t.file[j].id != t.file[k].id {
      if k == |s.file| {
        assert step.Append? && t.file[k].id == step.id;
      }
    }
  }

  lemma FailedIsOk(s: State, item: Item, e: Failure, failedAt: map<string, real>)
    requires s.now >= 0.0
    ensures RecordOk(s.(failedAt := failedAt[item.id := s.now]), Failed(item, e, s.now))
  {
  }

  lemma RecordStaysOk(s: State, step: Step, k: nat)
    requires Inv(s) && Enabled(s, step) && k < |s.file|
    ensures var u := Apply(s, step); k < |u.file| && RecordOk(u, u.file[k])
  {
    FileAfter(s, step, k);
    assert RecordOk(s, s.file[k]);
    if FailsOn(s, step, s.file[k].id) {
      FailedIsOk(Apply(s, step), s.file[k], step.e, s.failedAt);
    } else if WritesOn(s, step, s.file[k].id) {
      assert DeliveryOk(s, s.active[step.t]);
    }
  }

  lemma NewRecordIsOk(s: State, step: Step)
    requires Inv(s) && Enabled(s, step) && |Apply(s, step).file| > |s.file|
    ensures var u := Apply(s, step); |u.file| == |s.file| + 1 && RecordOk(u, u.file[|s.file|])
  {
  }

  /** Who delivers what after a step: as before, a new delivery, or one that has taken its copy. */
  lemma DeliveryAfter(s: State, step: Step, t: nat)
    requires Enabled(s, step) && t in Apply(s, step).active
    ensures var u := Apply(s, step);
      || (t in s.active && u.active[t] == s.active[t])
      || ((step.Start? || step.Append?) && t !in s.active && u.active[t] == Sending(step.id))
      || (step.GrabSent? && step.t == t && t in s.active && s.active[t].Sending? && Find(s.file, s.active[t].id) < |s.file|
          && u.active[t] == Confirming(s.file[Find(s.file, s.active[t].id)].(delivery := SENT)))
  {
  }

  lemma DeliverableStays(s: State, step: Step, id: string)
    requires Inv(s) && Enabled(s, step) && Find(s.file, id) < |s.file|
    requires s.file[Find(s.file, id)].delivery != URL_NOT_CONFIGURED
    ensures var u := Apply(s, step); var k := Find(u.file, id); k < |u.file| && u.file[k].delivery != URL_NOT_CONFIGURED
  {
    RecordAfter(s, step, id);
    if WritesOn(s, step, id) {
      assert DeliveryOk(s, s.active[step.t]);
    }
  }

  lemma AppendedIsDeliverable(s: State, step: Step)
    requires Enabled(s, step) && step.Append? && step.configured
    ensures var u := Apply(s, step); var k := Find(u.file, step.id);
      k < |u.file| && u.file[k].delivery != URL_NOT_CONFIGURED
  {
    FindIsFirst(Apply(s, step).file, step.id, |s.file|);
  }

  lemma DeliveryStaysOk(s: State, step: Step, t: nat)
    requires Inv(s) && Enabled(s, step) && t in Apply(s, step).active
    ensures DeliveryOk(Apply(s, step), Apply(s, step).active[t])
  {
    DeliveryAfter(s, step, t);
    var id := IdOf(Apply(s, step).active[t]);
    if t in s.active {
      assert DeliveryOk(s, s.active[t]);
      DeliverableStays(s, step, id);
    } else if step.Append? {
      assert step.configured;
      AppendedIsDeliverable(s, step);
    } else {
      DeliverableStays(s, step, id);
    }
  }

  lemma StepKeepsInv(s: State, step: Step)
    requires Inv(s) && Enabled(s, step)
    ensures Inv(Apply(s, step))
  {
    var u := Apply(s, step);
    IdsStayDistinct(s, step);
    forall k | 0 <= k < |u.file| ensures RecordOk(u, u.file[k]) {
      if k < |s.file| {
        RecordStaysOk(s, step, k);
      } else {
        NewRecordIsOk(s, step);
      }
    }
    forall t | t in u.active ensures DeliveryOk(u, u.active[t]) { DeliveryStaysOk(s, step, t); }
  }

  lemma {:induction false} InvFrom(s: State, steps: seq<Step>)
    requires Inv(s) && Schedule(s, steps)
    ensures Inv(Exec(s, steps))
    decreases |steps|
  {
    if steps != [] {
      StepKeepsInv(s, steps[0]);
      InvFrom(Apply(s, steps[0]), steps[1..]);
    }
  }

  /**
   In every schedule, however many callers deliver a record at a time: a record that may be retried has had one to four
   attempts, and one that is selected after `n` failures is selected no sooner than 5 * 2^(n-1) seconds after the last.
   */
  lemma RetriesWait(steps: seq<Step>, t: nat, id: string)
    requires Schedule(EMPTY, steps) && Enabled(Exec(EMPTY, steps), Start(t, id))
    ensures var s := Exec(EMPTY, steps); var item := s.file[Find(s.file, id)];
      && item.attempts <= 4
      && (item.delivery == FAILED_RETRYABLE <==> item.attempts > 0)
      && (item.attempts > 0 ==> id in s.failedAt && s.now >= s.failedAt[id] + 5.0 * Pow2(item.attempts - 1) as real)
  {
    InvFrom(EMPTY, steps);
    var s := Exec(EMPTY, steps);
    assert RecordOk(s, s.file[Find(s.file, id)]);
  }

  /**
   In every schedule, and at any time: a record can be selected exactly when it is pending, or when it may be retried and
   5, 10, 20 or 40 seconds have passed since its last failure, by its recorded count.
   */
  lemma SelectableIff(steps: seq<Step>, id: string, now: real)
    requires Schedule(EMPTY, steps) && Find(Exec(EMPTY, steps).file, id) < |Exec(EMPTY, steps).file|
    ensures var s := Exec(EMPTY, steps); var item := s.file[Find(s.file, id)];
      Due(item, now) <==>
        || item.delivery == PENDING
        || (item.delivery == FAILED_RETRYABLE && id in s.failedAt &&
            now >= s.failedAt[id] + (
              if item.attempts == 1 then 5.0 else if item.attempts == 2 then 10.0 else if item.attempts == 3 then 20.0 else 40.0))
    ensures var s := Exec(EMPTY, steps); var item := s.file[Find(s.file, id)];
      item.delivery == FAILED_RETRYABLE ==> 1 <= item.attempts <= 4
  {
    InvFrom(EMPTY, steps);
    var s := Exec(EMPTY, steps);
    var item := s.file[Find(s.file, id)];
    assert RecordOk(s, item);
    if item.delivery == FAILED_RETRYABLE {
      BackoffIs(item.attempts);
    }
  }

  /** What is appended waits to be sent at once, or never. */
  lemma FreshIs(id: string, body: string, now: real)
    ensures Fresh(id, body, true, now) == Item(id, body, PENDING, 0, 0, "", 0.0, now)
    ensures Fresh(id, body, false, now) == Item(id, body, URL_NOT_CONFIGURED, 0, 0, "", 0.0, now)
    ensures Due(Fresh(id, body, true, now), now) && !Due(Fresh(id, body, false, now), now)
  {
  }

  // ----- when a closed record stays closed -----

  predicate ClosedIn(f: File, id: string) {
    var k := Find(f, id); k < |f| && !Open(f[k].delivery)
  }

  predicate SendingOn(s: State, t: nat, id: string) {
    t in s.active && s.active[t] == Sending(id)
  }

  predicate CopyOn(s: State, t: nat, id: string) {
    t in s.active && s.active[t].Confirming? && s.active[t].copy.id == id
  }

  /** Room for another attempt. */
  predicate Leaves(attempts: nat) {
    attempts + 1 < MAX_RETRY_ATTEMPTS
  }

  /** A failure opens a closed record again exactly when it is retryable and within the budget. */
  lemma FailReopensIff(s: State, t: nat, e: Failure, id: string)
    requires Inv(s) && SendingOn(s, t, id) && ClosedIn(s.file, id)
    ensures !ClosedIn(Apply(s, Fail(t, e)).file, id) <==> e.retryable && Leaves(Attempts(s.file, id))
  {
    RecordAfter(s, Fail(t, e), id);
  }

  /** Somebody is still sending the record, and its count, or a copy somebody is about to write, leaves room for another attempt. */
  ghost predicate CanReopen(s: State, id: string) {
    && (exists t :: SendingOn(s, t, id))
    && (Leaves(Attempts(s.file, id)) || exists t :: CopyOn(s, t, id) && Leaves(s.active[t].copy.attempts))
  }

  lemma ClosedAfter(s: State, step: Step, id: string)
    requires Inv(s) && Enabled(s, step) && ClosedIn(s.file, id) && !CanReopen(s, id)
    ensures ClosedIn(Apply(s, step).file, id)
  {
    RecordAfter(s, step, id);
    if FailsOn(s, step, id) {
      assert SendingOn(s, step.t, id);
    } else if WritesOn(s, step, id) {
      assert DeliveryOk(s, s.active[step.t]);
    }
  }

  /** Nobody starts on a closed record, so whoever sends it, or holds a copy of it, did so before. */
  lemma SendersAfter(s: State, step: Step, id: string, t: nat)
    requires Inv(s) && Enabled(s, step) && ClosedIn(s.file, id)
    ensures SendingOn(Apply(s, step), t, id) ==> SendingOn(s, t, id)
    ensures CopyOn(Apply(s, step), t, id) ==>
      || (CopyOn(s, t, id) && Apply(s, step).active[t] == s.active[t])
      || (SendingOn(s, t, id) && Apply(s, step).active[t].copy.attempts == Attempts(s.file, id))
  {
    if t in Apply(s, step).active {
      DeliveryAfter(s, step, t);
    }
  }

  lemma NothingLeaves(s: State, step: Step, id: string)
    requires Inv(s) && Enabled(s, step) && ClosedIn(s.file, id) && !CanReopen(s, id) && exists t :: SendingOn(s, t, id)
    ensures !Leaves(Attempts(Apply(s, step).file, id))
    ensures forall t :: CopyOn(Apply(s, step), t, id) ==> !Leaves(Apply(s, step).active[t].copy.attempts)
  {
    RecordAfter(s, step, id);
    if WritesOn(s, step, id) {
      assert CopyOn(s, step.t, id);
    }
    forall t | CopyOn(Apply(s, step), t, id) ensures !Leaves(Apply(s, step).active[t].copy.attempts) {
      SendersAfter(s, step, id, t);
    }
  }

  lemma StaysClosed(s: State, step: Step, id: string)
    requires Inv(s) && Enabled(s, step) && ClosedIn(s.file, id) && !CanReopen(s, id)
    ensures ClosedIn(Apply(s, step).file, id) && !CanReopen(Apply(s, step), id)
  {
    ClosedAfter(s, step, id);
    forall t ensures SendingOn(Apply(s, step), t, id) ==> SendingOn(s, t, id) { SendersAfter(s, step, id, t); }
    if exists t :: SendingOn(s, t, id) {
      NothingLeaves(s, step, id);
    }
  }

  lemma {:induction false} ClosedForGood(s: State, steps: seq<Step>, id: string)
    requires Inv(s) && Schedule(s, steps) && ClosedIn(s.file, id) && !CanReopen(s, id)
    ensures ClosedIn(Exec(s, steps).file, id)
    decreases |steps|
  {
    if steps != [] {
      StepKeepsInv(s, steps[0]);
      StaysClosed(s, steps[0], id);
      ClosedForGood(Apply(s, steps[0]), steps[1..], id);
    }
  }

  const RETRYABLE := Failure(0, "CALLBACK_HTTP_ERROR", true)

  lemma ReopenedByFail(s: State, id: string, t: nat)
    requires Inv(s) && ClosedIn(s.file, id) && SendingOn(s, t, id) && Leaves(Attempts(s.file, id))
    ensures var steps := [Fail(t, RETRYABLE)];
      && Schedule(s, steps) && Inv(Exec(s, steps))
      && Find(Exec(s, steps).file, id) < |Exec(s, steps).file| && !ClosedIn(Exec(s, steps).file, id)
  {
    FailReopensIff(s, t, RETRYABLE, id);
    RecordAfter(s, Fail(t, RETRYABLE), id);
    StepKeepsInv(s, Fail(t, RETRYABLE));
    Prepend(s, Fail(t, RETRYABLE), []);
    assert [Fail(t, RETRYABLE)] + [] == [Fail(t, RETRYABLE)];
  }

  /** Writing a copy brings its count back. */
  lemma CopyComesBack(s: State, id: string, w: nat)
    requires Inv(s) && CopyOn(s, w, id) && Find(s.file, id) < |s.file|
    ensures var u := Apply(s, WriteSent(w));
      && Inv(u) && ClosedIn(u.file, id) && Attempts(u.file, id) == s.active[w].copy.attempts
      && forall t :: SendingOn(u, t, id) <==> SendingOn(s, t, id)
  {
    assert DeliveryOk(s, s.active[w]);
    RecordAfter(s, WriteSent(w), id);
    StepKeepsInv(s, WriteSent(w));
  }

  /** At most two steps open the record again. */
  lemma Reopening(s: State, id: string) returns (steps: seq<Step>)
    requires Inv(s) && ClosedIn(s.file, id) && CanReopen(s, id)
    ensures Schedule(s, steps) && Inv(Exec(s, steps))
    ensures Find(Exec(s, steps).file, id) < |Exec(s, steps).file| && !ClosedIn(Exec(s, steps).file, id)
  {
    var t :| SendingOn(s, t, id);
    steps := [Fail(t, RETRYABLE)];
    if Leaves(Attempts(s.file, id)) {
      ReopenedByFail(s, id, t);
    } else {
      var w :| CopyOn(s, w, id) && Leaves(s.active[w].copy.attempts);
      CopyComesBack(s, id, w);
      ReopenedByFail(Apply(s, WriteSent(w)), id, t);
      Prepend(s, WriteSent(w), steps);
      steps := [WriteSent(w)] + steps;
    }
  }

  /** A sent, final or unroutable record stays closed in every schedule exactly when `CanReopen` is false. */
  lemma ClosedForGoodIff(s: State, id: string)
    requires Inv(s) && ClosedIn(s.file, id)
    ensures (forall steps :: Schedule(s, steps) ==> ClosedIn(Exec(s, steps).file, id)) <==> !CanReopen(s, id)
  {
    if CanReopen(s, id) {
      var steps := Reopening(s, id);
      assert Schedule(s, steps) && !ClosedIn(Exec(s, steps).file, id);
    } else {
      forall steps | Schedule(s, steps) ensures ClosedIn(Exec(s, steps).file, id) { ClosedForGood(s, steps, id); }
    }
  }

  function Marked(id: string, body: string): Item {
    Fresh(id, body, true, 0.0).(delivery := SENT)
  }

  lemma TwoDeliver(id: string, body: string)
    ensures var made := Fresh(id, body, true, 0.0);
      && Enabled(EMPTY, Append(0, id, body, true))
      && Apply(EMPTY, Append(0, id, body, true)) == State([made], 0.0, map[0 := Sending(id)], map[])
      && Enabled(State([made], 0.0, map[0 := Sending(id)], map[]), Start(1, id))
      && Apply(State([made], 0.0, map[0 := Sending(id)], map[]), Start(1, id)) ==
           State([made], 0.0, map[0 := Sending(id), 1 := Sending(id)], map[])
  {
    assert Find([Fresh(id, body, true, 0.0)], id) == 0;
    assert EMPTY.file + [Fresh(id, body, true, 0.0)] == [Fresh(id, body, true, 0.0)];
  }

  lemma OneMarks(id: string, body: string)
    ensures var made := Fresh(id, body, true, 0.0);
      var two := State([made], 0.0, map[0 := Sending(id), 1 := Sending(id)], map[]);
      var held := State([made], 0.0, map[0 := Confirming(Marked(id, body)), 1 := Sending(id)], map[]);
      && Enabled(two, GrabSent(0)) && Apply(two, GrabSent(0)) == held
      && Enabled(held, WriteSent(0)) && Apply(held, WriteSent(0)) == State([Marked(id, body)], 0.0, map[1 := Sending(id)], map[])
  {
    assert Find([Fresh(id, body, true, 0.0)], id) == 0;
    assert map[0 := Confirming(Marked(id, body)), 1 := Sending(id)] - {0} == map[1 := Sending(id)];
  }

  /** From the start: one caller marks the record sent while another is still sending it, and then that one fails. */
  lemma SentIsUndone(id: string, body: string, e: Failure)
    requires e.retryable
    ensures var marked := [Append(0, id, body, true), Start(1, id), GrabSent(0), WriteSent(0)];
      && Schedule(EMPTY, marked) && Exec(EMPTY, marked).file == [Marked(id, body)]
      && Schedule(EMPTY, marked + [Fail(1, e)])
      && Exec(EMPTY, marked + [Fail(1, e)]).file == [Failed(Marked(id, body), e, 0.0)]
      && Failed(Marked(id, body), e, 0.0).delivery == FAILED_RETRYABLE
  {
    var made := Fresh(id, body, true, 0.0);
    var a := State([made], 0.0, map[0 := Sending(id)], map[]);
    var b := State([made], 0.0, map[0 := Sending(id), 1 := Sending(id)], map[]);
    var c := State([made], 0.0, map[0 := Confirming(Marked(id, body)), 1 := Sending(id)], map[]);
    var d := State([Marked(id, body)], 0.0, map[1 := Sending(id)], map[]);
    TwoDeliver(id, body);
    OneMarks(id, body);
    var marked := [Append(0, id, body, true), Start(1, id), GrabSent(0), WriteSent(0)];
    FourSteps(EMPTY, Append(0, id, body, true), a, Start(1, id), b, GrabSent(0), c, WriteSent(0), d, []);
    assert marked + [] == marked;
    LastFails(d, e, id, body);
    FourSteps(EMPTY, Append(0, id, body, true), a, Start(1, id), b, GrabSent(0), c, WriteSent(0), d, [Fail(1, e)]);
  }

  lemma LastFails(d: State, e: Failure, id: string, body: string)
    requires d == State([Marked(id, body)], 0.0, map[1 := Sending(id)], map[])
    ensures Schedule(d, [Fail(1, e)]) && Exec(d, [Fail(1, e)]).file == [Failed(Marked(id, body), e, 0.0)]
  {
    assert Find([Marked(id, body)], id) == 0;
    Prepend(d, Fail(1, e), []);
    assert [Fail(1, e)] + [] == [Fail(1, e)];
  }

  lemma FourSteps(s: State, w: Step, a: State, x: Step, b: State, y: Step, c: State, z: Step, d: State, rest: seq<Step>)
    requires Enabled(s, w) && Apply(s, w) == a && Enabled(a, x) && Apply(a, x) == b
    requires Enabled(b, y) && Apply(b, y) == c && Enabled(c, z) && Apply(c, z) == d && Schedule(d, rest)
    ensures Schedule(s, [w, x, y, z] + rest) && Exec(s, [w, x, y, z] + rest) == Exec(d, rest)
  {
    Prepend(c, z, rest);
    Prepend(b, y, [z] + rest);
    Prepend(a, x, [y] + ([z] + rest));
    Prepend(s, w, [x] + ([y] + ([z] + rest)));
    assert [w] + ([x] + ([y] + ([z] + rest))) == [w, x, y, z] + rest;
  }

  // ----- when the budget holds -----

  function SendersIn(active: map<nat, Delivering>, id: string): set<nat> {
    set t | t in active && active[t] == Sending(id)
  }

  function Senders(s: State, id: string): set<nat> {
    SendersIn(s.active, id)
  }

  lemma OneSenderMore(active: map<nat, Delivering>, id: string, t: nat)
    requires t !in active
    ensures |SendersIn(active[t := Sending(id)], id)| == |SendersIn(active, id)| + 1
  {
    assert SendersIn(active[t := Sending(id)], id) == SendersIn(active, id) + {t};
  }

  lemma OneSenderLess(active: map<nat, Delivering>, later: map<nat, Delivering>, id: string, t: nat)
    requires t in SendersIn(active, id)
    requires forall x :: x in SendersIn(later, id) <==> x in SendersIn(active, id) && x != t
    ensures |SendersIn(later, id)| == |SendersIn(active, id)| - 1
  {
    assert SendersIn(later, id) == SendersIn(active, id) - {t};
  }

  /** The record is closed for good, and not even the failure of everybody who still sends it takes any count over five. */
  ghost predicate Bounded(s: State, id: string) {
    && ClosedIn(s.file, id) && !CanReopen(s, id)
    && Attempts(s.file, id) + |Senders(s, id)| <= MAX_RETRY_ATTEMPTS
    && forall t :: CopyOn(s, t, id) ==> s.active[t].copy.attempts + |Senders(s, id)| <= MAX_RETRY_ATTEMPTS
  }

  /** The step of a caller who stops sending. */
  predicate Stops(s: State, step: Step, id: string) {
    (step.Fail? || step.GrabSent? || step.Abandon?) && SendingOn(s, step.t, id)
  }

  lemma SenderAfter(s: State, step: Step, id: string, t: nat)
    requires Enabled(s, step) && ClosedIn(s.file, id)
    ensures SendingOn(Apply(s, step), t, id) <==> SendingOn(s, t, id) && !(Stops(s, step, id) && t == step.t)
  {
  }

  lemma SendersShrink(s: State, step: Step, id: string)
    requires Enabled(s, step) && ClosedIn(s.file, id)
    ensures |Senders(Apply(s, step), id)| == |Senders(s, id)| - if Stops(s, step, id) then 1 else 0
  {
    forall t ensures SendingOn(Apply(s, step), t, id) <==> SendingOn(s, t, id) && !(Stops(s, step, id) && t == step.t) {
      SenderAfter(s, step, id, t);
    }
    if Stops(s, step, id) {
      OneSenderLess(s.active, Apply(s, step).active, id, step.t);
    } else {
      assert Senders(Apply(s, step), id) == Senders(s, id);
    }
  }

  lemma StaysBounded(s: State, step: Step, id: string)
    requires Inv(s) && Enabled(s, step) && Bounded(s, id)
    ensures Bounded(Apply(s, step), id)
  {
    var u := Apply(s, step);
    StaysClosed(s, step, id);
    RecordAfter(s, step, id);
    SendersShrink(s, step, id);
    if WritesOn(s, step, id) {
      assert CopyOn(s, step.t, id);
    }
    forall t | CopyOn(u, t, id) ensures u.active[t].copy.attempts + |Senders(u, id)| <= MAX_RETRY_ATTEMPTS {
      SendersAfter(s, step, id, t);
    }
  }

  lemma {:induction false} BoundedForGood(s: State, steps: seq<Step>, id: string)
    requires Inv(s) && Schedule(s, steps) && Bounded(s, id)
    ensures Attempts(Exec(s, steps).file, id) <= MAX_RETRY_ATTEMPTS
    decreases |steps|
  {
    if steps != [] {
      StepKeepsInv(s, steps[0]);
      StaysBounded(s, steps[0], id);
      BoundedForGood(Apply(s, steps[0]), steps[1..], id);
    }
  }

  lemma OneFails(s: State, id: string, t: nat)
    requires Inv(s) && SendingOn(s, t, id) && Find(s.file, id) < |s.file|
    ensures var u := Apply(s, Fail(t, RETRYABLE));
      && Inv(u) && Find(u.file, id) < |u.file| && Attempts(u.file, id) == Attempts(s.file, id) + 1
      && |Senders(u, id)| == |Senders(s, id)| - 1
  {
    StepKeepsInv(s, Fail(t, RETRYABLE));
    RecordAfter(s, Fail(t, RETRYABLE), id);
    OneSenderLess(s.active, s.active - {t}, id, t);
  }

  /** Everybody who sends the record fails. */
  lemma {:induction false} AllFail(s: State, id: string) returns (steps: seq<Step>)
    requires Inv(s) && Find(s.file, id) < |s.file|
    ensures Schedule(s, steps) && Attempts(Exec(s, steps).file, id) == Attempts(s.file, id) + |Senders(s, id)|
    decreases |Senders(s, id)|
  {
    steps := [];
    if Senders(s, id) != {} {
      var t :| t in Senders(s, id);
      OneFails(s, id, t);
      var rest := AllFail(Apply(s, Fail(t, RETRYABLE)), id);
      Prepend(s, Fail(t, RETRYABLE), rest);
      steps := [Fail(t, RETRYABLE)] + rest;
    }
  }

  lemma FreeCaller(taken: set<nat>) returns (t: nat)
    ensures forall x :: x in taken ==> x < t
    decreases |taken|
  {
    t := 0;
    if taken != {} {
      var x :| x in taken;
      var rest := FreeCaller(taken - {x});
      t := if rest > x then rest else x + 1;
      assert forall y :: y in taken ==> y == x || y in taken - {x};
    }
  }

  /** `n` more callers select a due record before everybody fails. */
  lemma {:induction false} ManyStart(s: State, id: string, n: nat) returns (steps: seq<Step>)
    requires Inv(s) && Find(s.file, id) < |s.file| && Due(s.file[Find(s.file, id)], s.now)
    ensures Schedule(s, steps) && Attempts(Exec(s, steps).file, id) == Attempts(s.file, id) + |Senders(s, id)| + n
    decreases n
  {
    if n == 0 {
      steps := AllFail(s, id);
    } else {
      var t := FreeCaller(s.active.Keys);
      var u := Apply(s, Start(t, id));
      StepKeepsInv(s, Start(t, id));
      OneSenderMore(s.active, id, t);
      var rest := ManyStart(u, id, n - 1);
      Prepend(s, Start(t, id), rest);
      steps := [Start(t, id)] + rest;
    }
  }

  /** An open record has no bound at all on its attempts. */
  lemma OpenHasNoBound(s: State, id: string, n: nat) returns (steps: seq<Step>)
    requires Inv(s) && Find(s.file, id) < |s.file| && !ClosedIn(s.file, id)
    ensures Schedule(s, steps) && Attempts(Exec(s, steps).file, id) >= n
  {
    var item := s.file[Find(s.file, id)];
    var to := if item.nextRetryAt > s.now then item.nextRetryAt else s.now;
    var u := Apply(s, Tick(to));
    StepKeepsInv(s, Tick(to));
    var rest := ManyStart(u, id, n);
    Prepend(s, Tick(to), rest);
    steps := [Tick(to)] + rest;
  }

  lemma {:induction false} Chain(s: State, first: seq<Step>, second: seq<Step>)
    requires Schedule(s, first) && Schedule(Exec(s, first), second)
    ensures Schedule(s, first + second) && Exec(s, first + second) == Exec(Exec(s, first), second)
    decreases |first|
  {
    if first == [] {
      assert first + second == second;
    } else {
      assert first + second == [first[0]] + (first[1..] + second);
      Chain(Apply(s, first[0]), first[1..], second);
      Prepend(s, first[0], first[1..] + second);
    }
  }

  lemma Overrunning(s: State, id: string) returns (steps: seq<Step>)
    requires Inv(s) && Find(s.file, id) < |s.file| && !Bounded(s, id)
    ensures Schedule(s, steps) && Attempts(Exec(s, steps).file, id) > MAX_RETRY_ATTEMPTS
  {
    if !ClosedIn(s.file, id) {
      steps := OpenHasNoBound(s, id, MAX_RETRY_ATTEMPTS + 1);
    } else if CanReopen(s, id) {
      var first := Reopening(s, id);
      var second := OpenHasNoBound(Exec(s, first), id, MAX_RETRY_ATTEMPTS + 1);
      Chain(s, first, second);
      steps := first + second;
    } else if Attempts(s.file, id) + |Senders(s, id)| > MAX_RETRY_ATTEMPTS {
      steps := AllFail(s, id);
    } else {
      var w :| CopyOn(s, w, id) && s.active[w].copy.attempts + |Senders(s, id)| > MAX_RETRY_ATTEMPTS;
      var u := Apply(s, WriteSent(w));
      StepKeepsInv(s, WriteSent(w));
      RecordAfter(s, WriteSent(w), id);
      SendersShrink(s, WriteSent(w), id);
      var rest := AllFail(u, id);
      Prepend(s, WriteSent(w), rest);
      steps := [WriteSent(w)] + rest;
    }
  }

  /** The attempts of a record stay within five in every schedule exactly when `Bounded` holds of it; for an open record it never does. */
  lemma BudgetForGoodIff(s: State, id: string)
    requires Inv(s) && Find(s.file, id) < |s.file|
    ensures (forall steps :: Schedule(s, steps) ==> Attempts(Exec(s, steps).file, id) <= MAX_RETRY_ATTEMPTS) <==> Bounded(s, id)
  {
    if Bounded(s, id) {
      forall steps | Schedule(s, steps) ensures Attempts(Exec(s, steps).file, id) <= MAX_RETRY_ATTEMPTS {
        BoundedForGood(s, steps, id);
      }
    } else {
      var steps := Overrunning(s, id);
      assert Schedule(s, steps) && Attempts(Exec(s, steps).file, id) > MAX_RETRY_ATTEMPTS;
    }
  }

  /** From the start: whatever number is given, some schedule makes that many attempts. */
  lemma AttemptsAreUnbounded(id: string, body: string, n: nat) returns (steps: seq<Step>)
    ensures Schedule(EMPTY, steps) && Attempts(Exec(EMPTY, steps).file, id) >= n
  {
    var first := Append(0, id, body, true);
    var s := Apply(EMPTY, first);
    assert s.file == [Fresh(id, body, true, 0.0)];
    assert Find(s.file, id) == 0;
    StepKeepsInv(EMPTY, first);
    var rest := OpenHasNoBound(s, id, n);
    Prepend(EMPTY, first, rest);
    steps := [first] + rest;
  }

  // ----- one delivery of a record at a time -----

  /** Every record selected along the schedule is delivered by nobody at that moment. */
  ghost predicate Alone(s: State, steps: seq<Step>)
    requires Schedule(s, steps)
    decreases |steps|
  {
    steps == [] ||
    (StartsAlone(s, steps[0]) && Alone(Apply(s, steps[0]), steps[1..]))
  }

  ghost predicate StartsAlone(s: State, step: Step) {
    step.Start? ==> forall t :: t in s.active ==> IdOf(s.active[t]) != step.id
  }

  /** Each delivery has its record to itself, the record is open, and a copy of it is current. */
  ghost predicate AloneInv(s: State) {
    && Inv(s)
    && (forall t, u :: t in s.active && u in s.active && IdOf(s.active[t]) == IdOf(s.active[u]) ==> t == u)
    && (forall t :: t in s.active ==> Current(s, s.active[t]))
    && (forall k :: 0 <= k < |s.file| ==> Spent(s.file[k]))
  }

  predicate Current(s: State, d: Delivering) {
    var k := Find(s.file, IdOf(d));
    k < |s.file| && Open(s.file[k].delivery) && (d.Confirming? ==> d.copy == s.file[k].(delivery := SENT))
  }

  predicate Spent(item: Item) {
    item.attempts <= MAX_RETRY_ATTEMPTS && (item.delivery == SENT ==> item.attempts < MAX_RETRY_ATTEMPTS)
  }

  lemma CurrentAfter(s: State, step: Step, t: nat)
    requires AloneInv(s) && Enabled(s, step) && StartsAlone(s, step) && t in Apply(s, step).active
    ensures Current(Apply(s, step), Apply(s, step).active[t])
  {
    DeliveryAfter(s, step, t);
    if t in s.active {
      assert Current(s, s.active[t]);
      RecordAfter(s, step, IdOf(s.active[t]));
    } else if step.Append? {
      FindIsFirst(Apply(s, step).file, step.id, |s.file|);
    } else {
      RecordAfter(s, step, step.id);
    }
  }

  lemma SpentAfter(s: State, step: Step, k: nat)
    requires AloneInv(s) && Enabled(s, step) && k < |Apply(s, step).file|
    ensures Spent(Apply(s, step).file[k])
  {
    if k < |s.file| {
      FileAfter(s, step, k);
      assert Spent(s.file[k]) && RecordOk(s, s.file[k]);
      if FailsOn(s, step, s.file[k].id) || WritesOn(s, step, s.file[k].id) {
        assert Current(s, s.active[step.t]);
        FindIsFirst(s.file, s.file[k].id, k);
      }
    }
  }

  lemma StepKeepsAlone(s: State, step: Step)
    requires AloneInv(s) && Enabled(s, step) && StartsAlone(s, step)
    ensures AloneInv(Apply(s, step))
  {
    var u := Apply(s, step);
    StepKeepsInv(s, step);
    forall t | t in u.active ensures Current(u, u.active[t]) { CurrentAfter(s, step, t); }
    forall k | 0 <= k < |u.file| ensures Spent(u.file[k]) { SpentAfter(s, step, k); }
    forall t, v | t in u.active && v in u.active && IdOf(u.active[t]) == IdOf(u.active[v]) ensures t == v {
      NewcomersAlone(s, step, t, v);
    }
  }

  lemma NewcomersAlone(s: State, step: Step, t: nat, v: nat)
    requires AloneInv(s) && Enabled(s, step) && StartsAlone(s, step)
    requires var u := Apply(s, step); t in u.active && v in u.active && IdOf(u.active[t]) == IdOf(u.active[v])
    ensures t == v
  {
    DeliveryAfter(s, step, t);
    DeliveryAfter(s, step, v);
    NewcomerIsNew(s, step, t);
    NewcomerIsNew(s, step, v);
  }

  /** A delivery that was not there before is the step's own, and nobody had its record. */
  lemma NewcomerIsNew(s: State, step: Step, t: nat)
    requires AloneInv(s) && Enabled(s, step) && StartsAlone(s, step) && t in Apply(s, step).active
    ensures t in s.active ==> IdOf(Apply(s, step).active[t]) == IdOf(s.active[t])
    ensures t !in s.active ==>
      && (step.Start? || step.Append?) && step.t == t && IdOf(Apply(s, step).active[t]) == step.id
      && (forall v :: v in s.active ==> IdOf(s.active[v]) != step.id)
  {
    DeliveryAfter(s, step, t);
    if t in s.active {
      assert DeliveryOk(s, s.active[t]);
      FindIsFirst(s.file, IdOf(s.active[t]), Find(s.file, IdOf(s.active[t])));
    } else {
      forall v | v in s.active ensures IdOf(s.active[v]) != step.id {
        assert DeliveryOk(s, s.active[v]);
      }
    }
  }

  /** Then the budget holds: at most five attempts, and at most four before a record is sent. */
  lemma {:induction false} BudgetHolds(s: State, steps: seq<Step>)
    requires AloneInv(s) && Schedule(s, steps) && Alone(s, steps)
    ensures AloneInv(Exec(s, steps))
    ensures forall k :: 0 <= k < |Exec(s, steps).file| ==> Spent(Exec(s, steps).file[k])
    decreases |steps|
  {
    if steps != [] {
      StepKeepsAlone(s, steps[0]);
      BudgetHolds(Apply(s, steps[0]), steps[1..]);
    }
  }

  lemma NothingAlone()
    ensures AloneInv(EMPTY)
  {
  }

  /** And a closed record stays exactly as it is. */
  lemma {:induction false} OverIsForGood(s: State, steps: seq<Step>, id: string)
    requires AloneInv(s) && Schedule(s, steps) && Alone(s, steps) && ClosedIn(s.file, id)
    ensures var u, k := Exec(s, steps), Find(s.file, id); Find(u.file, id) == k < |u.file| && u.file[k] == s.file[k]
    decreases |steps|
  {
    if steps != [] {
      var step := steps[0];
      assert forall t :: t in s.active ==> Current(s, s.active[t]);
      RecordAfter(s, step, id);
      StepKeepsAlone(s, step);
      OverIsForGood(Apply(s, step), steps[1..], id);
    }
  }
}
