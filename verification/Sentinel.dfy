/** The sentinel line that reports a command's exit code in a terminal session. */
module Sentinel {
  import opened Basics
  import opened Text

  /** How many digits a text begins with. */
  function DigitRun(s: string): (k: nat)
    ensures k <= |s| && (forall i :: 0 <= i < k ==> IsDigit(s[i])) && (k < |s| ==> !IsDigit(s[k]))
  {
    if s != "" && IsDigit(s[0]) then 1 + DigitRun(s[1..]) else 0
  }

  /** The pattern on one line: the sentinel, a colon, digits, and then only blanks. */
  function MatchLine(line: string, sentinel: string): Option<string> {
    if !(sentinel + ":" <= line) then None
    else
      var rest := line[|sentinel| + 1..];
      var k := DigitRun(rest);
      if k > 0 && forall i :: k <= i < |rest| ==> IsBlank(rest[i]) then Some(rest[..k]) else None
  }

  /** The digits of the first line that matches. */
  function Search(lines: seq<string>, sentinel: string): (r: Option<string>)
    ensures r.Some? ==> r.value != "" && forall i :: 0 <= i < |r.value| ==> IsDigit(r.value[i])
  {
    if lines == [] then None
    else if MatchLine(lines[0], sentinel).Some? then MatchLine(lines[0], sentinel)
    else Search(lines[1..], sentinel)
  }

  function ExtractExitCode(output: string, sentinel: string): Option<nat> {
    match Search(Lines(Norm(output)), sentinel)
    case None => None
    case Some(digits) => Some(Value(digits))
  }

  /** A line matches exactly when it is the sentinel, a colon, digits and then blanks, and the digits are what it gives. */
  lemma MatchesIff(line: string, sentinel: string, digits: string)
    ensures MatchLine(line, sentinel) == Some(digits) <==> IsReport(line, sentinel, digits)
  {
    if IsReport(line, sentinel, digits) {
      var blanks := line[|sentinel| + 1 + |digits|..];
      var rest := line[|sentinel| + 1..];
      assert rest == digits + blanks;
      DigitsRun(digits, blanks);
    }
    if MatchLine(line, sentinel) == Some(digits) {
      var rest := line[|sentinel| + 1..];
      var k := DigitRun(rest);
      assert digits == rest[..k];
      assert line == sentinel + ":" + digits + rest[k..];
    }
  }

  predicate IsReport(line: string, sentinel: string, digits: string) {
    && digits != "" && sentinel + ":" + digits <= line
    && (forall i :: 0 <= i < |digits| ==> '0' <= digits[i] <= '9')
    && (forall i :: |sentinel| + 1 + |digits| <= i < |line| ==> line[i] == ' ' || line[i] == '\t')
  }

  lemma {:induction false} DigitsRun(digits: string, blanks: string)
    requires forall i :: 0 <= i < |digits| ==> '0' <= digits[i] <= '9'
    requires forall i :: 0 <= i < |blanks| ==> blanks[i] == ' ' || blanks[i] == '\t'
    ensures DigitRun(digits + blanks) == |digits|
  {
    if digits != "" {
      assert (digits + blanks)[1..] == digits[1..] + blanks;
      DigitsRun(digits[1..], blanks);
    }
  }

  /** A line that begins like a report. */
  predicate BeginsReport(line: string, sentinel: string) {
    sentinel + ":" <= line && |line| > |sentinel| + 1 && IsDigit(line[|sentinel| + 1])
  }

  /** The first line of the transcript that begins like a report is the printed one, and it has been printed to its end. */
  ghost predicate Reports(output: string, sentinel: string, code: nat, at: nat) {
    var lines := Lines(Norm(output));
    && at < |lines| && lines[at] == sentinel + ":" + Decimal(code)
    && forall i :: 0 <= i < at ==> !BeginsReport(lines[i], sentinel)
  }

  lemma MatchNeedsBegin(line: string, sentinel: string)
    requires MatchLine(line, sentinel).Some?
    ensures BeginsReport(line, sentinel)
  {
  }

  lemma {:induction false} SearchSkips(lines: seq<string>, sentinel: string, at: nat)
    requires at <= |lines| && forall i :: 0 <= i < at ==> !BeginsReport(lines[i], sentinel)
    ensures Search(lines, sentinel) == Search(lines[at..], sentinel)
  {
    if at > 0 {
      if MatchLine(lines[0], sentinel).Some? {
        MatchNeedsBegin(lines[0], sentinel);
      }
      SearchSkips(lines[1..], sentinel, at - 1);
      assert lines[1..][at - 1..] == lines[at..];
    }
  }

  lemma {:induction false} AllDigits(s: string)
    requires forall i :: 0 <= i < |s| ==> IsDigit(s[i])
    ensures DigitRun(s) == |s|
  {
    if s != "" {
      AllDigits(s[1..]);
    }
  }

  /** A report cut after `k` digits matches with those digits. */
  lemma CutReportMatches(sentinel: string, digits: string, k: nat)
    requires k <= |digits| && forall i :: 0 <= i < |digits| ==> IsDigit(digits[i])
    ensures MatchLine(sentinel + ":" + digits[..k], sentinel) == if k > 0 then Some(digits[..k]) else None
  {
    var line := sentinel + ":" + digits[..k];
    assert sentinel + ":" <= line && line[|sentinel| + 1..] == digits[..k];
    AllDigits(digits[..k]);
    assert digits[..k][..k] == digits[..k];
  }

  /** What may be extracted before everything has arrived: nothing, or a beginning of the printed digits. */
  ghost predicate CutOfCode(got: Option<string>, code: nat) {
    got.None? || (got.value != "" && got.value <= Decimal(code))
  }

  lemma SearchOnCut(ls: seq<string>, ms: seq<string>, sentinel: string, code: nat, at: nat)
    requires CutOf(ls, ms) && at < |ms| && ms[at] == sentinel + ":" + Decimal(code)
    requires forall i :: 0 <= i < at ==> !BeginsReport(ms[i], sentinel)
    ensures CutOfCode(Search(ls, sentinel), code)
    ensures |ls| > at + 1 || (|ls| == at + 1 && ls[at] == ms[at]) ==> Search(ls, sentinel) == Some(Decimal(code))
  {
    var m := |ls| - 1;
    var n := if at <= m then at else m + 1;
    forall i | 0 <= i < n ensures !BeginsReport(ls[i], sentinel) {
      assert !BeginsReport(ms[i], sentinel);
    }
    SearchSkips(ls, sentinel, n);
    if at <= m {
      CutLineMatches(ls[at], ms[at], sentinel, code);
      if at == m {
        assert ls[at..] == [ls[at]];
        assert ls[at..][1..] == [];
      }
    }
  }

  lemma CutLineMatches(line: string, full: string, sentinel: string, code: nat)
    requires line <= full && full == sentinel + ":" + Decimal(code)
    ensures CutOfCode(MatchLine(line, sentinel), code)
    ensures line == full ==> MatchLine(line, sentinel) == Some(Decimal(code))
  {
    var digits := Decimal(code);
    if |line| > |sentinel| {
      var k := |line| - |sentinel| - 1;
      assert line == full[..|line|];
      assert line == sentinel + ":" + digits[..k];
      CutReportMatches(sentinel, digits, k);
      assert digits[..|digits|] == digits;
    }
  }

  lemma {:induction false} ValueIsZeroIff(s: string)
    requires forall i :: 0 <= i < |s| ==> IsDigit(s[i])
    ensures Value(s) == 0 <==> forall i :: 0 <= i < |s| ==> s[i] == '0'
  {
    if s != "" {
      ValueIsZeroIff(s[..|s| - 1]);
    }
  }

  /** A non-empty beginning of a printed number stands for zero exactly when the number is zero. */
  lemma CutCodeZeroIff(s: string, code: nat)
    requires s != "" && s <= Decimal(code)
    ensures (forall i :: 0 <= i < |s| ==> IsDigit(s[i])) && (Value(s) == 0 <==> code == 0)
    ensures s[0] == '0' ==> s == "0"
  {
    assert s[0] == Decimal(code)[0];
    ValueIsZeroIff(s);
    if code == 0 {
      assert |Decimal(0)| == 1;
    }
  }

  /**
   Wherever the reader stops, the exit code it extracts, if any, is a beginning of the printed one without a leading
   zero, and it is zero exactly when the command succeeded.
   */
  lemma AnyCutAgreesOnSuccess(output: string, got: string, sentinel: string, code: nat, at: nat)
    requires Reports(output, sentinel, code, at) && got <= output
    ensures var r := ExtractExitCode(got, sentinel);
      r.Some? ==>
        && (r.value == 0 <==> code == 0)
        && exists k :: 1 <= k <= |Decimal(code)| && r.value == Value(Decimal(code)[..k])
  {
    NormPrefix(got, output);
    LinesOfPrefix(Norm(got), Norm(output));
    SearchOnCut(Lines(Norm(got)), Lines(Norm(output)), sentinel, code, at);
    var r := Search(Lines(Norm(got)), sentinel);
    if r.Some? {
      CutCodeZeroIff(r.value, code);
      var k := |r.value|;
      assert r.value == Decimal(code)[..k];
    }
  }

  /** On the whole transcript the printed code is extracted. */
  lemma WholeTranscriptGivesCode(output: string, sentinel: string, code: nat, at: nat)
    requires Reports(output, sentinel, code, at)
    ensures ExtractExitCode(output, sentinel) == Some(code)
  {
    var lines := Lines(Norm(output));
    SearchOnCut(lines, lines, sentinel, code, at);
    ValueOfDecimal(code);
  }

  /** What the shell prints: anything, then the report on a line of its own, then anything. */
  function Transcript(before: string, sentinel: string, code: nat, after: string): string {
    before + "\r\n" + sentinel + ":" + Decimal(code) + "\r\n" + after
  }

  /** The printer keeps its side: unless an earlier line begins like a report, its line is the first one. */
  lemma PrintedLineReports(before: string, sentinel: string, code: nat, after: string)
    requires '\r' !in sentinel && '\n' !in sentinel
    requires forall i :: 0 <= i < |Lines(Norm(before))| ==> !BeginsReport(Lines(Norm(before))[i], sentinel)
    ensures Reports(Transcript(before, sentinel, code, after), sentinel, code, |Lines(Norm(before))|)
  {
    var line := sentinel + ":" + Decimal(code);
    NormOfTranscript(before, line, after);
    var rest := line + "\n" + Norm(after);
    assert Transcript(before, sentinel, code, after) == before + "\r\n" + line + "\r\n" + after;
    LinesAppend(Norm(before), rest);
    LinesOfTwo(line, Norm(after));
  }

  /** A line between two line ends. */
  lemma NormOfTranscript(before: string, line: string, after: string)
    requires '\r' !in line && '\n' !in line
    ensures Norm(before + "\r\n" + line + "\r\n" + after) == Norm(before) + "\n" + (line + "\n" + Norm(after))
  {
    var tail := line + ("\r\n" + after);
    assert before + "\r\n" + line + "\r\n" + after == before + ("\r\n" + tail);
    NormConcat(before, "\r\n" + tail);
    NormOfLineEnd(tail);
    NormConcat(line, "\r\n" + after);
    NormWithoutCr(line);
    NormOfLineEnd(after);
    assert Norm(before) + ("\n" + (line + ("\n" + Norm(after)))) == Norm(before) + "\n" + (line + "\n" + Norm(after));
  }

  lemma NormOfLineEnd(s: string)
    ensures Norm("\r\n" + s) == "\n" + Norm(s)
  {
    NormStep("\r\n" + s);
    assert ("\r\n" + s)[2..] == s;
  }

  // ----- stripping -----

  ghost function Without(sentinel: string): string -> bool {
    line => !Contains(line, sentinel)
  }

  ghost function Stripped(output: string, sentinel: string): string {
    Join(Filter(Lines(Norm(output)), Without(sentinel)))
  }

  /** Without the sentinel's lines, the text has exactly the other lines, in order, and nothing can be extracted any more. */
  lemma StrippingKeepsTheOthers(output: string, sentinel: string)
    requires sentinel != ""
    ensures var kept := Filter(Lines(Norm(output)), Without(sentinel));
      Lines(Stripped(output, sentinel)) == if kept == [] then [""] else kept
    ensures ExtractExitCode(Stripped(output, sentinel), sentinel) == None
  {
    var kept := Filter(Lines(Norm(output)), Without(sentinel));
    var text := Stripped(output, sentinel);
    KeptLines(output, sentinel);
    if kept == [] {
      assert Lines("") == [""];
    } else {
      LinesOfJoin(kept);
    }
    JoinKeepsOut(kept, '\r');
    NormWithoutCr(text);
    forall i | 0 <= i < |Lines(text)| ensures !BeginsReport(Lines(text)[i], sentinel) {
      ReportsContainSentinel(Lines(text)[i], sentinel);
    }
    SearchSkips(Lines(text), sentinel, |Lines(text)|);
  }

  lemma ReportsContainSentinel(line: string, sentinel: string)
    ensures BeginsReport(line, sentinel) ==> Contains(line, sentinel)
  {
    if BeginsReport(line, sentinel) {
      assert OccursAt(line, sentinel, 0);
    }
  }

  lemma KeptLines(output: string, sentinel: string)
    ensures var kept := Filter(Lines(Norm(output)), Without(sentinel));
      Avoid(kept, '\n') && Avoid(kept, '\r') && forall i :: 0 <= i < |kept| ==> !Contains(kept[i], sentinel)
  {
    var kept := Filter(Lines(Norm(output)), Without(sentinel));
    NormHasNoCr(output);
    LinesKeepOut(Norm(output), '\r');
    forall i | 0 <= i < |kept| ensures '\n' !in kept[i] && '\r' !in kept[i] && !Contains(kept[i], sentinel) {
      assert kept[i] in kept;
      assert kept[i] in Lines(Norm(output)) && Without(sentinel)(kept[i]);
    }
  }

  lemma {:induction false} JoinKeepsOut(lines: seq<string>, c: char)
    requires c != '\n' && Avoid(lines, c)
    ensures c !in Join(lines)
  {
    if |lines| > 1 {
      JoinKeepsOut(lines[1..], c);
    }
  }

  method StripTerminalSentinel(output: string, sentinel: string) returns (kept: string)
    ensures kept == Stripped(output, sentinel)
  {
    var lines := Lines(Norm(output));
    var others: seq<string> := [];
    var i := 0;
    while i < |lines|
      invariant 0 <= i <= |lines|
      invariant others == Filter(lines[..i], Without(sentinel))
    {
      FilterNext(lines, i, Without(sentinel));
      if !Contains(lines[i], sentinel) {
        others := others + [lines[i]];
      }
      i := i + 1;
    }
    assert lines[..i] == lines;
    kept := Join(others);
  }

  // ----- reading -----

  /** A chunk: its text, and how many bytes it has. */
  datatype Chunk = Chunk(text: string, bytes: nat)

  /** One turn of the reading loop: the clock, and the chunk that is ready, if any; an empty chunk closes the channel. */
  datatype Tick = Tick(at: int, ready: Option<Chunk>)

  datatype Reason = SENTINEL_DETECTED | MAX_OUTPUT | IDLE_TIMEOUT | NO_OUTPUT_TIMEOUT | CLOSED | COMMAND_TIMEOUT

  function Received(ticks: seq<Tick>): string {
    if ticks == [] then ""
    else Received(ticks[..|ticks| - 1]) + if ticks[|ticks| - 1].ready.Some? then ticks[|ticks| - 1].ready.value.text else ""
  }

  function BytesRead(ticks: seq<Tick>): nat {
    if ticks == [] then 0
    else BytesRead(ticks[..|ticks| - 1]) + if ticks[|ticks| - 1].ready.Some? then ticks[|ticks| - 1].ready.value.bytes else 0
  }

  lemma {:induction false} ReceivedPrefix(ticks: seq<Tick>, n: nat)
    requires n <= |ticks|
    ensures Received(ticks[..n]) <= Received(ticks)
    decreases |ticks|
  {
    if n < |ticks| {
      var shorter := ticks[..|ticks| - 1];
      ReceivedPrefix(shorter, n);
      assert shorter[..n] == ticks[..n];
    } else {
      assert ticks[..n] == ticks;
    }
  }

  lemma ReceivedNext(ticks: seq<Tick>, n: nat)
    requires n < |ticks|
    ensures Received(ticks[..n + 1]) == Received(ticks[..n]) + if ticks[n].ready.Some? then ticks[n].ready.value.text else ""
    ensures BytesRead(ticks[..n + 1]) == BytesRead(ticks[..n]) + if ticks[n].ready.Some? then ticks[n].ready.value.bytes else 0
    ensures ticks[n].ready.None? ==> Received(ticks[..n + 1]) == Received(ticks[..n])
  {
    assert ticks[..n + 1][..n] == ticks[..n];
  }

  predicate Detects(output: string, sentinel: Option<string>) {
    sentinel.Some? && ExtractExitCode(output, sentinel.value).Some?
  }

  lemma NothingInNothing(sentinel: Option<string>)
    ensures !Detects("", sentinel)
  {
    if sentinel.Some? {
      assert Norm("") == "" && Lines("") == [""] && !BeginsReport("", sentinel.value);
      SearchSkips([""], sentinel.value, 1);
      assert [""][1..] == [];
    }
  }

  /** When the last chunk before turn `n` came; the start if there was none. */
  function LastData(ticks: seq<Tick>, start: int, n: nat): int
    requires n <= |ticks|
  {
    if n == 0 then start else if ticks[n - 1].ready.Some? then ticks[n - 1].at else LastData(ticks, start, n - 1)
  }

  /** At turn `n` nothing has come for too long. */
  predicate SilentAt(ticks: seq<Tick>, start: int, timeout: nat, idle: nat, n: nat)
    requires n < |ticks|
  {
    ticks[n].ready.None? &&
    if Received(ticks[..n]) != "" then ticks[n].at - LastData(ticks, start, n) >= idle
    else ticks[n].at - start >= timeout || ticks[n].at - start >= idle
  }

  predicate ClosesAt(ticks: seq<Tick>, n: nat)
    requires n < |ticks|
  {
    ticks[n].ready.Some? && ticks[n].ready.value.text == ""
  }

  /** The turn passes: it is in time, something may come, and the channel stays open. */
  predicate Passes(ticks: seq<Tick>, start: int, timeout: nat, idle: nat, n: nat)
    requires n < |ticks|
  {
    ticks[n].at < start + timeout && !SilentAt(ticks, start, timeout, idle, n) && !ClosesAt(ticks, n)
  }

  /** Neither complete nor too long after `n` turns. */
  ghost predicate Unfinished(ticks: seq<Tick>, size: nat, complete: string -> bool, n: nat)
    requires n <= |ticks|
  {
    !complete(Received(ticks[..n])) && (size > 0 ==> BytesRead(ticks[..n]) < size)
  }

  ghost predicate AllPass(ticks: seq<Tick>, start: int, timeout: nat, idle: nat, n: nat)
    requires n <= |ticks|
  {
    n == 0 || (Passes(ticks, start, timeout, idle, n - 1) && AllPass(ticks, start, timeout, idle, n - 1))
  }

  ghost predicate NeverFinished(ticks: seq<Tick>, size: nat, complete: string -> bool, n: nat)
    requires n <= |ticks|
  {
    Unfinished(ticks, size, complete, n) && (n > 0 ==> NeverFinished(ticks, size, complete, n - 1))
  }

  lemma {:induction false} AllPassMeans(ticks: seq<Tick>, start: int, timeout: nat, idle: nat, n: nat, k: nat)
    requires k < n <= |ticks| && AllPass(ticks, start, timeout, idle, n)
    ensures Passes(ticks, start, timeout, idle, k)
  {
    if k < n - 1 {
      AllPassMeans(ticks, start, timeout, idle, n - 1, k);
    }
  }

  lemma {:induction false} NeverFinishedMeans(ticks: seq<Tick>, size: nat, complete: string -> bool, n: nat, k: nat)
    requires k <= n <= |ticks| && NeverFinished(ticks, size, complete, n)
    ensures Unfinished(ticks, size, complete, k)
  {
    if k < n {
      NeverFinishedMeans(ticks, size, complete, n - 1, k);
    }
  }

  /** Whether reading ends with a chunk; COMMAND_TIMEOUT stands for going on. */
  method AfterChunk(output: string, bytes: nat, size: nat, complete: string -> bool) returns (reason: Reason)
    ensures reason == if bytes >= size then MAX_OUTPUT else if complete(output) then SENTINEL_DETECTED else COMMAND_TIMEOUT
  {
    if bytes >= size {
      return MAX_OUTPUT;
    }
    if complete(output) {
      return SENTINEL_DETECTED;
    }
    reason := COMMAND_TIMEOUT;
  }

  /** Whether reading ends while nothing is ready. */
  method Waiting(output: string, now: int, last: int, start: int, timeout: nat, idle: nat) returns (reason: Reason)
    ensures output != "" ==> reason == if now - last >= idle then IDLE_TIMEOUT else COMMAND_TIMEOUT
    ensures output == "" ==>
      reason == if now - start >= timeout || now - start >= idle then NO_OUTPUT_TIMEOUT else COMMAND_TIMEOUT
  {
    if output != "" && now - last >= idle {
      return IDLE_TIMEOUT;
    }
    if output == "" && now - start >= (if timeout < idle then timeout else idle) {
      return NO_OUTPUT_TIMEOUT;
    }
    reason := COMMAND_TIMEOUT;
  }

  /** The reading loop, for any way of telling that the output is complete; `now` is the clock at its end. */
  method ReadUntil(ticks: seq<Tick>, start: int, timeout: nat, idle: nat, size: nat, complete: string -> bool)
    returns (output: string, reason: Reason, used: nat, bytes: nat, now: int)
    requires ticks != [] && ticks[|ticks| - 1].at >= start + timeout && !complete("")
    ensures used <= |ticks| && output == Received(ticks[..used]) && output <= Received(ticks) && bytes == BytesRead(ticks[..used])
    ensures reason == SENTINEL_DETECTED ==> complete(output)
    ensures reason != SENTINEL_DETECTED && reason != MAX_OUTPUT ==> !complete(output)
    ensures reason == MAX_OUTPUT ==> bytes >= size
    ensures reason != MAX_OUTPUT && size > 0 ==> bytes < size
    ensures reason == COMMAND_TIMEOUT <==> now >= start + timeout
    ensures reason == COMMAND_TIMEOUT ==> used < |ticks| && ticks[used].at == now
    ensures reason == NO_OUTPUT_TIMEOUT ==> output == ""
    ensures reason == IDLE_TIMEOUT ==> output != ""
    ensures reason == IDLE_TIMEOUT || reason == NO_OUTPUT_TIMEOUT <==>
      reason != SENTINEL_DETECTED && reason != MAX_OUTPUT && reason != COMMAND_TIMEOUT
      && used < |ticks| && SilentAt(ticks, start, timeout, idle, used)
    ensures reason == CLOSED ==> used < |ticks| && ClosesAt(ticks, used)
    ensures AllPass(ticks, start, timeout, idle, used) && (used > 0 ==> NeverFinished(ticks, size, complete, used - 1))
  {
    output := "";
    bytes := 0;
    var last := start;
    used := 0;
    reason := COMMAND_TIMEOUT;
    now := ticks[0].at;
    while ticks[used].at < start + timeout
      invariant used < |ticks| && output == Received(ticks[..used]) && reason == COMMAND_TIMEOUT && bytes == BytesRead(ticks[..used])
      invariant last == LastData(ticks, start, used)
      invariant AllPass(ticks, start, timeout, idle, used) && NeverFinished(ticks, size, complete, used)
      decreases |ticks| - used
    {
      now := ticks[used].at;
      ReceivedNext(ticks, used);
      if ticks[used].ready.Some? && ticks[used].ready.value.text == "" {
        reason := CLOSED;
        break;
      }
      if ticks[used].ready.Some? {
        output, bytes, last := output + ticks[used].ready.value.text, bytes + ticks[used].ready.value.bytes, now;
        used := used + 1;
        reason := AfterChunk(output, bytes, size, complete);
      } else {
        reason := Waiting(output, now, last, start, timeout, idle);
        if reason == COMMAND_TIMEOUT {
          used := used + 1;
        }
      }
      if reason != COMMAND_TIMEOUT {
        break;
      }
    }
    if reason == COMMAND_TIMEOUT {
      now := ticks[used].at;
    }
    ReceivedPrefix(ticks, used);
  }

  lemma EarlierTurns(ticks: seq<Tick>, start: int, timeout: nat, idle: nat, size: nat, sentinel: Option<string>,
                     complete: string -> bool, used: nat)
    requires used <= |ticks| && forall text :: complete(text) == Detects(text, sentinel)
    requires AllPass(ticks, start, timeout, idle, used) && (used > 0 ==> NeverFinished(ticks, size, complete, used - 1))
    ensures forall n :: 0 <= n < used ==> Passes(ticks, start, timeout, idle, n)
    ensures forall n :: 0 <= n < used ==> !Detects(Received(ticks[..n]), sentinel) && (size > 0 ==> BytesRead(ticks[..n]) < size)
  {
    forall n | 0 <= n < used ensures Passes(ticks, start, timeout, idle, n) {
      AllPassMeans(ticks, start, timeout, idle, used, n);
    }
    forall n | 0 <= n < used ensures !Detects(Received(ticks[..n]), sentinel) && (size > 0 ==> BytesRead(ticks[..n]) < size) {
      NeverFinishedMeans(ticks, size, complete, used - 1, n);
      assert !complete(Received(ticks[..n]));
    }
  }

  /** What is reported beside the output. */
  datatype Reading = Reading(
    reason: Reason, bytes: nat, hardTimeoutHit: bool, idleTimeoutHit: bool, sentinelDetected: bool, outputTruncated: bool)

  /**
   Reads chunks until the report shows up, the output is too long, the device falls silent, the channel closes, or time
   runs out. `size` is the limit on the bytes, and `pause` the time from the end of the loop to the report. The sentinel is
   noticed with the very chunk that completes its first digit.
   */
  method ReadTerminalUntilIdle(
    ticks: seq<Tick>, start: int, timeout: nat, idle: nat, size: nat, sentinel: Option<string>, pause: nat)
    returns (output: string, report: Reading, used: nat)
    requires ticks != [] && ticks[|ticks| - 1].at >= start + timeout
    ensures used <= |ticks| && output == Received(ticks[..used]) && output <= Received(ticks)
    ensures report.reason == SENTINEL_DETECTED ==> Detects(output, sentinel)
    ensures report.reason != SENTINEL_DETECTED && report.reason != MAX_OUTPUT ==> !Detects(output, sentinel)
    ensures report.reason == NO_OUTPUT_TIMEOUT ==> output == ""
    ensures report.bytes == BytesRead(ticks[..used]) && (report.outputTruncated <==> report.reason == MAX_OUTPUT)
    ensures size > 0 ==> (report.outputTruncated <==> report.bytes >= size)
    ensures report.sentinelDetected <==> report.reason == SENTINEL_DETECTED
    ensures report.idleTimeoutHit <==> report.reason == IDLE_TIMEOUT && !report.hardTimeoutHit
    ensures report.reason == COMMAND_TIMEOUT ==> report.hardTimeoutHit
    ensures report.reason == CLOSED ==> !report.hardTimeoutHit
    ensures report.reason == IDLE_TIMEOUT || report.reason == NO_OUTPUT_TIMEOUT ==>
      used < |ticks| && SilentAt(ticks, start, timeout, idle, used)
    ensures report.reason == CLOSED ==> used < |ticks| && ClosesAt(ticks, used)
    ensures forall n :: 0 <= n < used ==> Passes(ticks, start, timeout, idle, n)
    ensures forall n :: 0 <= n < used ==> !Detects(Received(ticks[..n]), sentinel) && (size > 0 ==> BytesRead(ticks[..n]) < size)
  {
    NothingInNothing(sentinel);
    var reason, bytes, now;
    var complete := text => Detects(text, sentinel);
    output, reason, used, bytes, now := ReadUntil(ticks, start, timeout, idle, size, complete);
    EarlierTurns(ticks, start, timeout, idle, size, sentinel, complete, used);
    var late := now + pause >= start + timeout;
    if late && reason == CLOSED {
      reason := COMMAND_TIMEOUT;
    }
    report := Reading(reason, bytes, late, output != "" && !late && reason == IDLE_TIMEOUT, reason == SENTINEL_DETECTED, reason == MAX_OUTPUT);
  }

  /** Whatever chunks the device's transcript comes in, and whyever the reader stops, success is never mistaken for failure or the other way round. */
  lemma ReaderAgreesOnSuccess(ticks: seq<Tick>, used: nat, sentinel: string, code: nat, at: nat)
    requires used <= |ticks| && Reports(Received(ticks), sentinel, code, at)
    ensures var r := ExtractExitCode(Received(ticks[..used]), sentinel); r.Some? ==> (r.value == 0 <==> code == 0)
  {
    ReceivedPrefix(ticks, used);
    AnyCutAgreesOnSuccess(Received(ticks), Received(ticks[..used]), sentinel, code, at);
  }
}
