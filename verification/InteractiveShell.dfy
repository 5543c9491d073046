/** The interactive shell: sending a command, reading its output with echo, prompt and pager logic, and grading the steps. */
module InteractiveShell {
  import opened Basics
  import opened Text
  import opened Normalizer

  const MAX_MORE_PAGES := 200

  /** How prompts and pager marks are recognised: `prompt` on cleaned text, `mores` counts the marks in it. */
  datatype Recognizer = Recognizer(prompt: string -> bool, mores: string -> nat)

  /** One turn of the loop: the clock at its start and at its idle check, what arrived, and whether a key press can be sent. */
  datatype Tick = Tick(at: int, chunk: Option<string>, checkedAt: int, canSend: bool)

  function Received(ticks: seq<Tick>): string {
    if ticks == [] then ""
    else Received(ticks[..|ticks| - 1]) + if ticks[|ticks| - 1].chunk.Some? then ticks[|ticks| - 1].chunk.value else ""
  }

  datatype Reason =
    | PROMPT_DETECTED | HARD_TIMEOUT_WITH_OUTPUT | HARD_TIMEOUT | FIRST_OUTPUT_TIMEOUT | PROMPT_TIMEOUT | NO_PROMPT

  datatype Quality =
    | FINE | ONLY_COMMAND_ECHO | NO_COMMAND_OUTPUT | ONLY_LOGIN_BANNER
    | TimedOut(reason: Reason)

  datatype Meta = Meta(
    promptDetected: bool, echoSeen: bool, idleHit: bool, hardHit: bool, gotOutput: bool, pages: nat,
    reason: Reason, quality: Quality)

  predicate EchoIn(output: string, cmd: string) {
    Strip(cmd) != "" && Contains(Clean(output), Strip(cmd))
  }

  // ----- grading the output -----

  /** The place after the last occurrence of `part`, or None. */
  function AfterLast(s: string, part: string): Option<nat> {
    var i := LastWhere((i: nat) => OccursAt(s, part, i), |s|);
    if i.Some? then Some(i.value + |part|) else None
  }

  function NonBlank(lines: seq<string>): seq<string> {
    if lines == [] then [] else (if Strip(lines[0]) != "" then [lines[0]] else []) + NonBlank(lines[1..])
  }

  /** Nothing but the echo and perhaps the final prompt line. */
  predicate OnlyEcho(output: string, cmd: string, rec: Recognizer) {
    var clean := Norm(Clean(output));
    var after := AfterLast(clean, Strip(cmd));
    var lines := NonBlank(Lines(if after.Some? && after.value <= |clean| then clean[after.value..] else ""));
    lines == [] || (|lines| == 1 && rec.prompt(lines[0]))
  }

  function ReasonFor(prompt: bool, hard: bool, recentOutput: bool, idle: bool, anyOutput: bool): Reason {
    if prompt then PROMPT_DETECTED
    else if hard && recentOutput then HARD_TIMEOUT_WITH_OUTPUT
    else if hard then HARD_TIMEOUT
    else if idle && !anyOutput then FIRST_OUTPUT_TIMEOUT
    else if idle then PROMPT_TIMEOUT
    else NO_PROMPT
  }

  function QualityFor(output: string, cmd: string, rec: Recognizer, echo: bool, anyOutput: bool, reason: Reason): Quality {
    if !reason.PROMPT_DETECTED? && !reason.NO_PROMPT? then TimedOut(reason)
    else if echo then (if OnlyEcho(output, cmd, rec) then ONLY_COMMAND_ECHO else FINE)
    else if Strip(Norm(Clean(output))) == "" then NO_COMMAND_OUTPUT
    else if anyOutput then ONLY_LOGIN_BANNER
    else FINE
  }

  function Min(a: int, b: int): int {
    if a <= b then a else b
  }

  function Max(a: int, b: int): int {
    if a >= b then a else b
  }

  lemma ReceivedNext(ticks: seq<Tick>, n: nat)
    requires n < |ticks|
    ensures Received(ticks[..n + 1]) == Received(ticks[..n]) + if ticks[n].chunk.Some? then ticks[n].chunk.value else ""
  {
    assert ticks[..n + 1][..n] == ticks[..n];
  }

  /** The clock never goes back, chunks are not empty, and the deadline is reached in the end. */
  ghost predicate Clocked(ticks: seq<Tick>, start: int, timeout: nat) {
    && ticks != [] && ticks[|ticks| - 1].at >= start + timeout && ticks[0].at >= start
    && (forall i :: 0 <= i < |ticks| ==> ticks[i].at <= ticks[i].checkedAt && (ticks[i].chunk.Some? ==> ticks[i].chunk.value != ""))
    && (forall i :: 0 < i < |ticks| ==> ticks[i - 1].checkedAt <= ticks[i].at)
  }

  /** How the reading loop ended. */
  datatype Exit = ByPrompt | ByPagerCap | ByIdle | ByDeadline

  /** What has arrived by then shows the echo, and now the prompt. */
  ghost predicate Finishes(cmd: string, rec: Recognizer, ticks: seq<Tick>, n: nat)
    requires n <= |ticks|
  {
    (exists k :: 0 <= k <= n && EchoIn(Received(ticks[..k]), cmd)) && rec.prompt(Clean(Received(ticks[..n])))
  }

  /** The timeouts of a read, in milliseconds. */
  datatype Pace = Pace(timeout: nat, idle: nat)

  /** When the last of the first `n` turns that brought something began. */
  function LastChunk(ticks: seq<Tick>, n: nat): Option<int>
    requires n <= |ticks|
  {
    if n == 0 then None else if ticks[n - 1].chunk.Some? then Some(ticks[n - 1].at) else LastChunk(ticks, n - 1)
  }

  /**
   After the first `n` turns nothing has come for too long: for more than `idle` since the last chunk, or, when nothing has
   come at all, for more than the timeout or the longer of ten seconds and `idle`, whichever is shorter.
   */
  predicate IdleAfter(ticks: seq<Tick>, start: int, pace: Pace, n: nat)
    requires n <= |ticks|
  {
    n > 0 &&
    match LastChunk(ticks, n)
    case Some(last) => ticks[n - 1].checkedAt - last > pace.idle
    case None =>
      ticks[n - 1].checkedAt - start > pace.timeout || ticks[n - 1].checkedAt - start > (if pace.idle > 10000 then pace.idle else 10000)
  }

  /** The loop did not end before `used` turns: each began before the deadline, echo and prompt had not shown, and it was not idle. */
  ghost predicate GoesOn(cmd: string, ticks: seq<Tick>, start: int, pace: Pace, used: nat, rec: Recognizer) {
    && used <= |ticks|
    && (forall n :: 0 <= n < used ==> ticks[n].at < start + pace.timeout)
    && (forall n :: 0 <= n < used ==> !Finishes(cmd, rec, ticks, n))
    && (forall n :: 0 <= n < used ==> !IdleAfter(ticks, start, pace, n))
  }

  /** How the loop ends, and that it ends by the first of these that holds. */
  ghost predicate EndsBy(exit: Exit, pages: nat, cmd: string, ticks: seq<Tick>, start: int, pace: Pace, used: nat, rec: Recognizer)
    requires used <= |ticks|
  {
    && (exit.ByPrompt? <==> Finishes(cmd, rec, ticks, used))
    && (exit.ByPagerCap? ==> pages == 200 && rec.mores(Clean(Received(ticks[..used]))) > 200)
    && (exit.ByIdle? <==> !exit.ByPrompt? && !exit.ByPagerCap? && IdleAfter(ticks, start, pace, used))
    && (exit.ByDeadline? ==> used < |ticks| && ticks[used].at >= start + pace.timeout)
    && pages <= 200
  }

  /** What the outcome of a read is called. */
  ghost predicate NamedBy(reason: Reason, exit: Exit, late: bool, gotOutput: bool, recent: bool) {
    reason ==
      if exit.ByPrompt? then PROMPT_DETECTED
      else if late then (if gotOutput && recent then HARD_TIMEOUT_WITH_OUTPUT else HARD_TIMEOUT)
      else if exit.ByIdle? then (if gotOutput then PROMPT_TIMEOUT else FIRST_OUTPUT_TIMEOUT)
      else NO_PROMPT
  }

  /** What a read that was over at `finished` reports about what was received. */
  ghost predicate ReadOk(output: string, meta: Meta, exit: Exit, cmd: string, ticks: seq<Tick>, start: int, pace: Pace,
                         finished: int, used: nat, rec: Recognizer)
  {
    && GoesOn(cmd, ticks, start, pace, used, rec) && EndsBy(exit, meta.pages, cmd, ticks, start, pace, used, rec)
    && output == Received(ticks[..used])
    && (exit.ByDeadline? ==> finished >= start + pace.timeout)
    && (meta.promptDetected <==> exit.ByPrompt?)
    && (meta.promptDetected ==> meta.echoSeen && rec.prompt(Clean(output)))
    && (meta.echoSeen <==> exists n :: 0 <= n <= used && EchoIn(Received(ticks[..n]), cmd))
    && (meta.idleHit <==> exit.ByIdle?)
    && (meta.hardHit <==> finished >= start + pace.timeout && !exit.ByPrompt?)
    && (meta.gotOutput <==> output != "") && (meta.gotOutput <==> LastChunk(ticks, used).Some?)
    && NamedBy(meta.reason, exit, meta.hardHit, meta.gotOutput,
               LastChunk(ticks, used).Some? && finished - LastChunk(ticks, used).value <= pace.idle)
    && meta.quality == QualityFor(output, cmd, rec, meta.echoSeen, meta.gotOutput, meta.reason)
  }

  /** A device that keeps within the gaps, pages no more than 200 times and shows its prompt in time is read to its prompt. */
  lemma PromptIsReached(output: string, meta: Meta, exit: Exit, cmd: string, ticks: seq<Tick>, start: int, pace: Pace,
                        finished: int, used: nat, rec: Recognizer, n: nat)
    requires ReadOk(output, meta, exit, cmd, ticks, start, pace, finished, used, rec)
    requires n <= |ticks| && Finishes(cmd, rec, ticks, n) && forall m :: 0 <= m < n ==> !Finishes(cmd, rec, ticks, m)
    requires forall m :: 0 <= m < n ==> ticks[m].at < start + pace.timeout && !IdleAfter(ticks, start, pace, m)
    requires forall m :: 0 <= m <= n ==> rec.mores(Clean(Received(ticks[..m]))) <= 200
    ensures exit.ByPrompt? && used == n && output == Received(ticks[..n]) && meta.reason.PROMPT_DETECTED?
  {
    assert used <= n;
  }

  /** Giving up for want of a prompt without any timeout happens in one way only: at the cap of 200 pages. */
  lemma NoPromptMeansPagerCap(output: string, meta: Meta, exit: Exit, cmd: string, ticks: seq<Tick>, start: int, pace: Pace,
                              finished: int, used: nat, rec: Recognizer)
    requires ReadOk(output, meta, exit, cmd, ticks, start, pace, finished, used, rec) && meta.reason.NO_PROMPT?
    ensures exit.ByPagerCap? && meta.pages == 200 && rec.mores(Clean(output)) > 200
  {
  }

  /** What the reading loop knows when it ends. */
  datatype Loop = Loop(echo: bool, prompt: bool, idleHit: bool, first: bool, last: int, pages: nat, now: int)

  /** The echo has shown by the time `n` turns are over. */
  ghost predicate SeenBy(echoes: string -> bool, ticks: seq<Tick>, n: nat)
    requires n <= |ticks|
  {
    echoes(Received(ticks[..n])) || (n > 0 && SeenBy(echoes, ticks, n - 1))
  }

  lemma {:induction false} SeenByIff(echoes: string -> bool, ticks: seq<Tick>, n: nat)
    requires n <= |ticks|
    ensures SeenBy(echoes, ticks, n) <==> exists k :: 0 <= k <= n && echoes(Received(ticks[..k]))
  {
    if n > 0 {
      SeenByIff(echoes, ticks, n - 1);
    }
  }

  ghost predicate LoopOk(output: string, loop: Loop, exit: Exit, ticks: seq<Tick>, used: nat, start: int, pace: Pace,
                         echoes: string -> bool, ends: string -> bool, mores: string -> nat) {
    && used <= |ticks| && output == Received(ticks[..used])
    && (forall n :: 0 <= n < used ==> ticks[n].at < start + pace.timeout && !IdleAfter(ticks, start, pace, n))
    && (loop.prompt <==> exit.ByPrompt?) && (loop.prompt ==> loop.echo && ends(output))
    && (loop.echo <==> SeenBy(echoes, ticks, used))
    && (loop.idleHit <==> exit.ByIdle?) && (exit.ByIdle? ==> IdleAfter(ticks, start, pace, used))
    && (exit.ByDeadline? ==> used < |ticks| && loop.now == ticks[used].at >= start + pace.timeout)
    && (exit.ByDeadline? ==> !IdleAfter(ticks, start, pace, used))
    && ticks != [] && loop.now == ClockAt(ticks, exit, used)
    && loop.pages <= 200 && (exit.ByPagerCap? ==> loop.pages == 200 && mores(output) > 200)
    && (loop.first <==> output != "") && (loop.first <==> LastChunk(ticks, used).Some?)
    && (loop.first ==> loop.last == LastChunk(ticks, used).value)
    && (used > 0 ==> !CompleteBy(echoes, ends, ticks, used - 1)) && (!loop.prompt ==> !Complete(echoes, ends, ticks, used))
  }

  /** The echo has shown and the prompt shows. */
  ghost predicate Complete(echoes: string -> bool, ends: string -> bool, ticks: seq<Tick>, n: nat)
    requires n <= |ticks|
  {
    SeenBy(echoes, ticks, n) && ends(Received(ticks[..n]))
  }

  ghost predicate CompleteBy(echoes: string -> bool, ends: string -> bool, ticks: seq<Tick>, n: nat)
    requires n <= |ticks|
  {
    Complete(echoes, ends, ticks, n) || (n > 0 && CompleteBy(echoes, ends, ticks, n - 1))
  }

  lemma {:induction false} CompleteByIff(echoes: string -> bool, ends: string -> bool, ticks: seq<Tick>, n: nat)
    requires n <= |ticks|
    ensures CompleteBy(echoes, ends, ticks, n) <==> exists k :: 0 <= k <= n && Complete(echoes, ends, ticks, k)
  {
    if n > 0 {
      CompleteByIff(echoes, ends, ticks, n - 1);
    }
  }

  /** What the loop knows between two turns; `handled` counts the pager marks that were answered. */
  datatype Running = Running(output: string, echo: bool, first: bool, last: int, pages: nat, handled: nat)

  /** What one turn changes, and how it ends the loop. */
  predicate Turned(tick: Tick, was: Running, now: Running, exit: Exit, start: int, pace: Pace,
                   echoes: string -> bool, ends: string -> bool, mores: string -> nat) {
    && now.output == was.output + (if tick.chunk.Some? then tick.chunk.value else "")
    && now.first == (was.first || tick.chunk.Some?)
    && now.last == (if tick.chunk.Some? then tick.at else was.last)
    && now.echo == (was.echo || echoes(now.output))
    && now.pages <= now.handled && now.pages <= 200
    && (exit.ByPrompt? <==> now.echo && ends(now.output))
    && (exit.ByPagerCap? <==> !exit.ByPrompt? && mores(now.output) > was.handled && was.pages == 200)
    && (exit.ByPagerCap? ==> now.pages == 200 && mores(now.output) > 200)
    && (if !exit.ByPrompt? && mores(now.output) > was.handled && was.pages < 200 && tick.canSend
        then now.pages == was.pages + 1 && now.handled == mores(now.output)
        else now.pages == was.pages && now.handled == was.handled)
    && (exit.ByIdle? <==> !exit.ByPrompt? && !exit.ByPagerCap? && TooLong(tick, start, pace, now.first, now.last))
  }

  /** One turn of the loop: what arrives, then the checks for prompt, pager marks and idleness, in this order. */
  method TakeTurn(tick: Tick, was: Running, start: int, pace: Pace, echoes: string -> bool, ends: string -> bool, mores: string -> nat)
    returns (now: Running, exit: Exit)
    requires was.pages <= was.handled && was.pages <= MAX_MORE_PAGES
    requires tick.chunk.None? && !was.echo ==> !echoes(was.output)
    ensures Turned(tick, was, now, exit, start, pace, echoes, ends, mores)
  {
    now, exit := was, ByDeadline;
    if tick.chunk.Some? {
      now := now.(output := now.output + tick.chunk.value, first := true, last := tick.at);
    } else {
      assert was.output + "" == was.output;
    }
    if !now.echo && echoes(now.output) {
      now := now.(echo := true, last := tick.at);
    }
    if now.echo && ends(now.output) {
      return now, ByPrompt;
    }
    var seen := mores(now.output);
    if seen > now.handled {
      if now.pages >= MAX_MORE_PAGES {
        return now, ByPagerCap;
      }
      if tick.canSend {
        now := now.(pages := now.pages + 1, handled := seen);
      }
    }
    var firstTimeout := Min(pace.timeout, Max(10000, pace.idle));
    if (!now.first && tick.checkedAt - start > firstTimeout) || (now.first && tick.checkedAt - now.last > pace.idle) {
      exit := ByIdle;
    }
  }

  /** Nothing has come for too long when the turn checks for it. */
  predicate TooLong(tick: Tick, start: int, pace: Pace, first: bool, last: int) {
    if first then tick.checkedAt - last > pace.idle
    else tick.checkedAt - start > pace.timeout || tick.checkedAt - start > (if pace.idle > 10000 then pace.idle else 10000)
  }

  /** The reading loop, for any way of telling echo, prompt and pager marks in what has been received. */
  method ReadLoop(ticks: seq<Tick>, start: int, pace: Pace, echoes: string -> bool, ends: string -> bool, mores: string -> nat)
    returns (output: string, loop: Loop, exit: Exit, used: nat)
    requires Clocked(ticks, start, pace.timeout) && !echoes("")
    ensures LoopOk(output, loop, exit, ticks, used, start, pace, echoes, ends, mores)
  {
    var state := Running("", false, false, 0, 0, 0);
    used := 0;
    exit := ByDeadline;
    assert ticks[..0] == [];
    while ticks[used].at < start + pace.timeout
      invariant used < |ticks| && exit == ByDeadline && Knows(state, ticks, used, echoes)
      invariant GoesOnTo(ticks, start, pace, used, echoes, ends)
      decreases |ticks| - used
    {
      ghost var was := state;
      KnowsNext(state, ticks, used, echoes);
      state, exit := TakeTurn(ticks[used], state, start, pace, echoes, ends, mores);
      AfterTurn(was, state, exit, ticks, used, start, pace, echoes, ends, mores);
      used := used + 1;
      if !exit.ByDeadline? {
        break;
      }
    }
    if exit.ByDeadline? {
      AtDeadline(state, ticks, used, start, pace, echoes, ends, mores);
    }
    output := state.output;
    loop := LoopFor(state, exit, ticks, used);
  }

  /** What the loop reports. */
  function LoopFor(state: Running, exit: Exit, ticks: seq<Tick>, used: nat): Loop
    requires ticks != [] && used <= |ticks| && (exit.ByDeadline? ==> used < |ticks|)
  {
    Loop(state.echo, exit.ByPrompt?, exit.ByIdle?, state.first, state.last, state.pages, ClockAt(ticks, exit, used))
  }

  /** The loop goes on after `n` turns. */
  ghost predicate GoesOnTo(ticks: seq<Tick>, start: int, pace: Pace, n: nat, echoes: string -> bool, ends: string -> bool)
    requires n <= |ticks|
  {
    Goes(ticks, start, pace, n) && !IdleAfter(ticks, start, pace, n) && !CompleteBy(echoes, ends, ticks, n)
  }

  lemma AfterTurn(was: Running, now: Running, exit: Exit, ticks: seq<Tick>, n: nat, start: int, pace: Pace,
                  echoes: string -> bool, ends: string -> bool, mores: string -> nat)
    requires n < |ticks| && Knows(was, ticks, n, echoes) && Turned(ticks[n], was, now, exit, start, pace, echoes, ends, mores)
    requires ticks[n].at < start + pace.timeout && (ticks[n].chunk.Some? ==> ticks[n].chunk.value != "")
    requires GoesOnTo(ticks, start, pace, n, echoes, ends)
    ensures Knows(now, ticks, n + 1, echoes) && Goes(ticks, start, pace, n + 1)
    ensures exit.ByDeadline? ==> GoesOnTo(ticks, start, pace, n + 1, echoes, ends)
    ensures !exit.ByDeadline? ==>
      LoopOk(now.output, LoopFor(now, exit, ticks, n + 1), exit, ticks, n + 1, start, pace, echoes, ends, mores)
  {
    KnowsNext(was, ticks, n, echoes);
    TurnIs(ticks, start, pace, n);
    GoesMeans(ticks, start, pace, n + 1);
  }

  lemma AtDeadline(state: Running, ticks: seq<Tick>, n: nat, start: int, pace: Pace,
                   echoes: string -> bool, ends: string -> bool, mores: string -> nat)
    requires n < |ticks| && Knows(state, ticks, n, echoes) && ticks[n].at >= start + pace.timeout
    requires GoesOnTo(ticks, start, pace, n, echoes, ends)
    ensures LoopOk(state.output, LoopFor(state, ByDeadline, ticks, n), ByDeadline, ticks, n, start, pace, echoes, ends, mores)
  {
    GoesMeans(ticks, start, pace, n);
    CompleteNow(ticks, n, echoes, ends);
  }

  lemma CompleteNow(ticks: seq<Tick>, n: nat, echoes: string -> bool, ends: string -> bool)
    requires n <= |ticks| && !CompleteBy(echoes, ends, ticks, n)
    ensures !Complete(echoes, ends, ticks, n) && (n > 0 ==> !CompleteBy(echoes, ends, ticks, n - 1))
  {
  }

  /** What is known after `n` turns is right. */
  ghost predicate Knows(state: Running, ticks: seq<Tick>, n: nat, echoes: string -> bool) {
    && n <= |ticks| && state.pages <= state.handled && state.pages <= MAX_MORE_PAGES
    && state.output == Received(ticks[..n]) && (state.echo <==> SeenBy(echoes, ticks, n))
    && (state.first <==> state.output != "") && (state.first <==> LastChunk(ticks, n).Some?)
    && (state.first ==> state.last == LastChunk(ticks, n).value)
  }

  lemma KnowsNext(was: Running, ticks: seq<Tick>, n: nat, echoes: string -> bool)
    requires n < |ticks| && Knows(was, ticks, n, echoes) && (ticks[n].chunk.Some? ==> ticks[n].chunk.value != "")
    ensures ticks[n].chunk.None? && !was.echo ==> !echoes(was.output)
    ensures forall now: Running ::
      && now.output == was.output + (if ticks[n].chunk.Some? then ticks[n].chunk.value else "")
      && now.first == (was.first || ticks[n].chunk.Some?)
      && now.last == (if ticks[n].chunk.Some? then ticks[n].at else was.last)
      && now.echo == (was.echo || echoes(now.output)) && now.pages <= now.handled && now.pages <= MAX_MORE_PAGES
      ==> Knows(now, ticks, n + 1, echoes)
  {
    ReceivedNext(ticks, n);
    assert !was.echo ==> !echoes(Received(ticks[..n]));
  }

  /** All turns before `n` began in time, and the loop was never idle. */
  ghost predicate Goes(ticks: seq<Tick>, start: int, pace: Pace, n: nat)
    requires n <= |ticks|
  {
    n == 0 ||
    (ticks[n - 1].at < start + pace.timeout && !IdleAfter(ticks, start, pace, n - 1) && Goes(ticks, start, pace, n - 1))
  }

  lemma {:induction false} GoesMeans(ticks: seq<Tick>, start: int, pace: Pace, n: nat)
    requires n <= |ticks| && Goes(ticks, start, pace, n)
    ensures forall k :: 0 <= k < n ==> ticks[k].at < start + pace.timeout && !IdleAfter(ticks, start, pace, k)
  {
    if n > 0 {
      GoesMeans(ticks, start, pace, n - 1);
    }
  }

  /** How one more turn changes what the idle check looks at. */
  lemma TurnIs(ticks: seq<Tick>, start: int, pace: Pace, n: nat)
    requires n < |ticks|
    ensures LastChunk(ticks, n + 1) == if ticks[n].chunk.Some? then Some(ticks[n].at) else LastChunk(ticks, n)
    ensures IdleAfter(ticks, start, pace, n + 1) <==>
      if LastChunk(ticks, n + 1).Some? then ticks[n].checkedAt - LastChunk(ticks, n + 1).value > pace.idle
      else ticks[n].checkedAt - start > Min(pace.timeout, Max(10000, pace.idle))
  {
  }

  /** How the loop tells the echo of a command and a prompt. */
  ghost predicate TellsBy(cmd: string, rec: Recognizer, echoes: string -> bool, ends: string -> bool) {
    forall text :: echoes(text) == EchoIn(text, cmd) && ends(text) == rec.prompt(Clean(text))
  }

  lemma SeenMeans(cmd: string, rec: Recognizer, ticks: seq<Tick>, n: nat, echoes: string -> bool, ends: string -> bool)
    requires TellsBy(cmd, rec, echoes, ends) && n <= |ticks|
    ensures SeenBy(echoes, ticks, n) <==> exists k :: 0 <= k <= n && EchoIn(Received(ticks[..k]), cmd)
    ensures Complete(echoes, ends, ticks, n) <==> Finishes(cmd, rec, ticks, n)
  {
    SeenByIff(echoes, ticks, n);
    forall k | 0 <= k <= n ensures echoes(Received(ticks[..k])) == EchoIn(Received(ticks[..k]), cmd) {
    }
  }

  lemma NotFinished(cmd: string, rec: Recognizer, ticks: seq<Tick>, used: nat, echoes: string -> bool, ends: string -> bool, n: nat)
    requires TellsBy(cmd, rec, echoes, ends) && n < used <= |ticks| && !CompleteBy(echoes, ends, ticks, used - 1)
    ensures !Finishes(cmd, rec, ticks, n)
  {
    CompleteByIff(echoes, ends, ticks, used - 1);
    SeenMeans(cmd, rec, ticks, n, echoes, ends);
  }

  /** The clock when the loop ends. */
  function ClockAt(ticks: seq<Tick>, exit: Exit, used: nat): int
    requires ticks != [] && used <= |ticks| && (exit.ByDeadline? ==> used < |ticks|)
  {
    if exit.ByDeadline? then ticks[used].at else if used > 0 then ticks[used - 1].checkedAt else ticks[0].at
  }

  /** A read ends at the first prompt that shows after the echo has shown, if not before; `pause` is the time it takes to report. */
  method SendAndRead(cmd: string, ticks: seq<Tick>, start: int, pace: Pace, pause: nat, rec: Recognizer)
    returns (output: string, meta: Meta, exit: Exit, used: nat, finished: int)
    requires Clocked(ticks, start, pace.timeout)
    ensures ReadOk(output, meta, exit, cmd, ticks, start, pace, finished, used, rec)
    ensures used <= |ticks| && finished == ClockAt(ticks, exit, used) + pause
  {
    NoEchoInNothing(cmd);
    var loop;
    var echoes, ends, mores :=
      (text: string) => EchoIn(text, cmd), (text: string) => rec.prompt(Clean(text)), (text: string) => rec.mores(Clean(text));
    output, loop, exit, used := ReadLoop(ticks, start, pace, echoes, ends, mores);
    assert TellsBy(cmd, rec, echoes, ends);
    SeenMeans(cmd, rec, ticks, used, echoes, ends);
    forall n | 0 <= n < used ensures !Finishes(cmd, rec, ticks, n) {
      NotFinished(cmd, rec, ticks, used, echoes, ends, n);
    }
    finished := loop.now + pause;
    var hard := finished >= start + pace.timeout && !loop.prompt;
    var recent := loop.first && finished - loop.last <= pace.idle;
    var reason := ReasonFor(loop.prompt, hard, recent, loop.idleHit, loop.first);
    meta := Meta(loop.prompt, loop.echo, loop.idleHit, hard, loop.first, loop.pages, reason,
                 QualityFor(output, cmd, rec, loop.echo, loop.first, reason));
  }

  lemma NoEchoInNothing(cmd: string)
    ensures !EchoIn("", cmd)
  {
    assert DropSequences("") == "" && Clean("") == "";
  }

  // ----- the steps of a task -----

  /** What the loop looks up about a command: its name, its text, and whether it only sets the scene. */
  datatype Command = Command(name: string, text: string, setsScene: bool)

  datatype StepStatus = SUCCESS | PARTIAL | TIMEOUT | FAILED

  /** `read` is what the reader reported, if the command got that far. */
  datatype Step = Step(index: nat, name: string, status: StepStatus, read: Option<Meta>)

  datatype Trouble = Nothing | TimesOut | Breaks

  /**
   What one command meets: a task deadline that has passed, a dead transport, an exception while sending, the turns of
   the reader, and an exception while extracting variables from the output.
   */
  datatype Turn = Turn(
    overdue: bool, dead: bool, sending: Trouble, ticks: seq<Tick>, start: int, pause: nat, extracting: Trouble)

  predicate Poor(q: Quality) {
    q.ONLY_COMMAND_ECHO? || q.NO_COMMAND_OUTPUT? || q.ONLY_LOGIN_BANNER?
    || q == TimedOut(PROMPT_TIMEOUT) || q == TimedOut(FIRST_OUTPUT_TIMEOUT)
  }

  function TroubleStatus(t: Trouble): StepStatus
    requires !t.Nothing?
  {
    if t.TimesOut? then TIMEOUT else FAILED
  }

  /** The grade of a command that was read. */
  function Grade(c: Command, meta: Meta, extracting: Trouble): StepStatus {
    if meta.reason.HARD_TIMEOUT_WITH_OUTPUT? && meta.gotOutput then PARTIAL
    else if meta.hardHit then TIMEOUT
    else if Poor(meta.quality) then
      if c.setsScene && meta.quality.ONLY_COMMAND_ECHO? && meta.promptDetected then SUCCESS else FAILED
    else if meta.idleHit then TIMEOUT
    else if !extracting.Nothing? then TroubleStatus(extracting)
    else SUCCESS
  }

  /** What kind of output a read got. */
  lemma QualityIs(output: string, cmd: string, rec: Recognizer, echo: bool, anyOutput: bool, reason: Reason)
    ensures var q := QualityFor(output, cmd, rec, echo, anyOutput, reason);
      var over := reason == PROMPT_DETECTED || reason == NO_PROMPT;
      && (!over ==> q == TimedOut(reason))
      && (over && echo ==> q == if OnlyEcho(output, cmd, rec) then ONLY_COMMAND_ECHO else FINE)
      && (over && !echo && Strip(Norm(Clean(output))) == "" ==> q == NO_COMMAND_OUTPUT)
      && (over && !echo && Strip(Norm(Clean(output))) != "" && anyOutput ==> q == ONLY_LOGIN_BANNER)
      && (over && !echo && Strip(Norm(Clean(output))) != "" && !anyOutput ==> q == FINE)
  {
  }

  /** How flags, reason and quality of a read go together. */
  predicate Coheres(meta: Meta, exit: Exit) {
    && (meta.promptDetected <==> exit.ByPrompt?) && (meta.idleHit <==> exit.ByIdle?)
    && (meta.reason.PROMPT_DETECTED? <==> exit.ByPrompt?) && (exit.ByPrompt? ==> !meta.hardHit)
    && (meta.reason.HARD_TIMEOUT_WITH_OUTPUT? || meta.reason.HARD_TIMEOUT? <==> meta.hardHit)
    && (meta.reason.HARD_TIMEOUT_WITH_OUTPUT? ==> meta.gotOutput)
    && (meta.reason.PROMPT_TIMEOUT? || meta.reason.FIRST_OUTPUT_TIMEOUT? <==> meta.idleHit && !meta.hardHit)
    && (meta.reason.PROMPT_DETECTED? || meta.reason.NO_PROMPT? <==> !meta.quality.TimedOut?)
    && (meta.quality.TimedOut? ==> meta.quality.reason == meta.reason)
  }

  lemma ReadsCohere(output: string, meta: Meta, exit: Exit, cmd: string, ticks: seq<Tick>, start: int, pace: Pace,
                    finished: int, used: nat, rec: Recognizer)
    requires ReadOk(output, meta, exit, cmd, ticks, start, pace, finished, used, rec)
    ensures Coheres(meta, exit)
  {
    QualityIs(output, cmd, rec, meta.echoSeen, meta.gotOutput, meta.reason);
  }

  /** How a command that was read is graded, by the four grades. */
  lemma GradesIff(c: Command, meta: Meta, extracting: Trouble, exit: Exit)
    requires Coheres(meta, exit)
    ensures var g := Grade(c, meta, extracting);
      var scene := c.setsScene && meta.quality == ONLY_COMMAND_ECHO && exit.ByPrompt?;
      && (g == PARTIAL <==> meta.reason == HARD_TIMEOUT_WITH_OUTPUT)
      && (g == SUCCESS <==> scene || (meta.quality == FINE && extracting == Trouble.Nothing))
      && (g == TIMEOUT <==> meta.reason == HARD_TIMEOUT || (meta.quality == FINE && extracting == TimesOut))
      && (g == FAILED <==>
            || meta.reason == PROMPT_TIMEOUT || meta.reason == FIRST_OUTPUT_TIMEOUT
            || (meta.quality == ONLY_COMMAND_ECHO && !scene)
            || meta.quality == NO_COMMAND_OUTPUT || meta.quality == ONLY_LOGIN_BANNER
            || (meta.quality == FINE && extracting == Breaks))
  {
  }

  /** The reader's report behind a step came from reading this command. */
  ghost predicate WasRead(c: Command, turn: Turn, meta: Meta, pace: Pace, rec: Recognizer) {
    exists output, exit, finished, used :: ReadOk(output, meta, exit, c.text, turn.ticks, turn.start, pace, finished, used, rec)
  }

  ghost predicate StepOk(c: Command, turn: Turn, i: nat, step: Step, pace: Pace, rec: Recognizer) {
    && step.index == i && step.name == c.name
    && (if turn.overdue then step.read.None? && step.status == TIMEOUT
        else if turn.dead then step.read.None? && step.status == FAILED
        else if !turn.sending.Nothing? then step.read.None? && step.status == TroubleStatus(turn.sending)
        else (step.read.Some? && WasRead(c, turn, step.read.value, pace, rec)
              && step.status == Grade(c, step.read.value, turn.extracting)))
  }

  /** Success means the reader saw the echo and then a prompt, or the echo and output up to the page cap. */
  lemma SuccessMeansPromptOrPagerCap(c: Command, turn: Turn, i: nat, step: Step, pace: Pace, rec: Recognizer)
    requires StepOk(c, turn, i, step, pace, rec) && step.status == SUCCESS
    ensures step.read.Some? && var m := step.read.value;
      m.echoSeen && !m.hardHit && !m.idleHit
      && (m.promptDetected || (m.reason.NO_PROMPT? && m.pages == 200))
      && (m.quality.FINE? || (c.setsScene && m.quality.ONLY_COMMAND_ECHO? && m.promptDetected))
  {
    var m := step.read.value;
    var output, exit, finished, used :| ReadOk(output, m, exit, c.text, turn.ticks, turn.start, pace, finished, used, rec);
    if m.reason.NO_PROMPT? && !m.echoSeen {
      BlankHasBlankClean(output);
    }
  }

  lemma BlankHasBlankClean(output: string)
    ensures output == "" ==> Strip(Norm(Clean(output))) == ""
  {
    if output == "" {
      assert DropSequences("") == "" && Clean("") == "" && Norm("") == "" && Strip("") == "";
    }
  }

  method ReadStep(c: Command, turn: Turn, i: nat, pace: Pace, rec: Recognizer) returns (step: Step)
    requires Clocked(turn.ticks, turn.start, pace.timeout)
    ensures StepOk(c, turn, i, step, pace, rec)
  {
    if turn.overdue {
      return Step(i, c.name, TIMEOUT, None);
    }
    if turn.dead {
      return Step(i, c.name, FAILED, None);
    }
    if !turn.sending.Nothing? {
      return Step(i, c.name, TroubleStatus(turn.sending), None);
    }
    var output, meta, exit, used, finished;
    output, meta, exit, used, finished := SendAndRead(c.text, turn.ticks, turn.start, pace, turn.pause, rec);
    assert ReadOk(output, meta, exit, c.text, turn.ticks, turn.start, pace, finished, used, rec);
    step := Step(i, c.name, Grade(c, meta, turn.extracting), Some(meta));
  }

  ghost predicate AnyFailure(steps: seq<Step>) {
    exists i :: 0 <= i < |steps| && steps[i].status != SUCCESS
  }

  ghost predicate AnyTimeout(steps: seq<Step>) {
    exists i :: 0 <= i < |steps| && steps[i].status == TIMEOUT
  }

  lemma OneStepMore(steps: seq<Step>, step: Step)
    ensures AnyFailure(steps + [step]) <==> AnyFailure(steps) || step.status != SUCCESS
    ensures AnyTimeout(steps + [step]) <==> AnyTimeout(steps) || step.status == TIMEOUT
  {
    var more := steps + [step];
    assert more[|steps|] == step && forall i :: 0 <= i < |steps| ==> more[i] == steps[i];
  }

  /** The steps so far are those of the commands so far. */
  ghost predicate StepsOk(commands: seq<Command>, turns: nat -> Turn, steps: seq<Step>, pace: Pace, rec: Recognizer) {
    |steps| <= |commands| && forall i :: 0 <= i < |steps| ==> StepOk(commands[i], turns(i), i, steps[i], pace, rec)
  }

  lemma StepsOkNext(commands: seq<Command>, turns: nat -> Turn, steps: seq<Step>, step: Step, pace: Pace, rec: Recognizer)
    requires StepsOk(commands, turns, steps, pace, rec) && |steps| < |commands|
    requires StepOk(commands[|steps|], turns(|steps|), |steps|, step, pace, rec)
    ensures StepsOk(commands, turns, steps + [step], pace, rec)
  {
    forall j | 0 <= j < |steps| + 1 ensures StepOk(commands[j], turns(j), j, (steps + [step])[j], pace, rec) {
      if j < |steps| {
        assert (steps + [step])[j] == steps[j];
      }
    }
  }

  /** One step per command in order, and flags that say exactly whether some step failed or timed out. */
  method ExecuteInteractiveShell(commands: seq<Command>, turns: nat -> Turn, pace: Pace, rec: Recognizer)
    returns (steps: seq<Step>, hasFailure: bool, hasTimeout: bool)
    requires forall i: nat :: i < |commands| ==> Clocked(turns(i).ticks, turns(i).start, pace.timeout)
    ensures |steps| == |commands| && StepsOk(commands, turns, steps, pace, rec)
    ensures (hasFailure <==> AnyFailure(steps)) && (hasTimeout <==> AnyTimeout(steps))
  {
    steps, hasFailure, hasTimeout := [], false, false;
    while |steps| < |commands|
      invariant |steps| <= |commands| && StepsOk(commands, turns, steps, pace, rec)
      invariant (hasFailure <==> AnyFailure(steps)) && (hasTimeout <==> AnyTimeout(steps))
      decreases |commands| - |steps|
    {
      var i := |steps|;
      var step := ReadStep(commands[i], turns(i), i, pace, rec);
      StepsOkNext(commands, turns, steps, step, pace, rec);
      OneStepMore(steps, step);
      steps := steps + [step];
      if step.status == TIMEOUT {
        hasTimeout := true;
      }
      if step.status != SUCCESS {
        hasFailure := true;
      }
    }
  }
}
