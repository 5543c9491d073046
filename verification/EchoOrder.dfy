/** When a successful step of the interactive shell has its prompt after its echo. */
module EchoOrder {
  import opened Basics
  import opened Text
  import opened Normalizer
  import opened InteractiveShell

  // ----- the prompt pattern -----

  predicate IsOpening(c: char) {
    c == '<' || c == '['
  }

  predicate IsClosing(c: char) {
    c == '>' || c == ']'
  }

  predicate IsInner(c: char) {
    !IsOpening(c) && !IsClosing(c) && c != '\r' && c != '\n'
  }

  /** An opening bracket, 1 to 128 other characters, a closing bracket at `q`, and blanks. */
  predicate ClosesAt(line: string, q: nat) {
    && 2 <= q <= 129 && q < |line| && IsOpening(line[0]) && IsClosing(line[q])
    && (forall i :: 1 <= i < q ==> IsInner(line[i]))
    && (forall i :: q < i < |line| ==> IsBlank(line[i]))
  }

  ghost predicate IsPromptLine(line: string) {
    exists q :: ClosesAt(line, q)
  }

  /** A prompt line from `p` to `q` at the start of a line, with nothing but a line end behind it. */
  ghost predicate PromptAt(t: string, p: nat, q: nat) {
    && p <= q <= |t| && (p == 0 || t[p - 1] == '\n')
    && IsPromptLine(t[p..q]) && (t[q..] == "" || t[q..] == "\n" || t[q..] == "\r\n")
  }

  ghost predicate EndsWithPrompt(t: string) {
    exists p: nat, q: nat :: PromptAt(t, p, q)
  }

  /** The recogniser of the program. */
  ghost predicate Recognizes(rec: Recognizer) {
    forall t :: rec.prompt(t) <==> EndsWithPrompt(t)
  }

  ghost predicate EndsIn(t: string, line: string) {
    exists p: nat, q: nat :: PromptAt(t, p, q) && t[p..q] == line
  }

  /** The text that the output is graded on. */
  function Graded(output: string): string {
    Norm(Clean(output))
  }

  /** The echo, and behind it the prompt. */
  ghost predicate PromptAfterEcho(t: string, c: string) {
    exists i: nat, p: nat, q: nat :: OccursAt(t, c, i) && PromptAt(t, p, q) && i + |c| <= p
  }

  /** A read whose echo shows in some part of the output and that is not graded as a bare echo, unless its command may be. */
  ghost predicate Passes(cmd: string, setsScene: bool, prefix: string, output: string, rec: Recognizer) {
    prefix <= output && EchoIn(prefix, cmd) && (OnlyEcho(output, cmd, rec) ==> setsScene)
  }

  // ----- the condition -----

  /** A place where a command may run over from the text before the prompt into the prompt line. */
  predicate CutAt(c: string, j: nat) {
    j < |c| && (j == 0 || c[j - 1] == '\n')
  }

  /** The last match ends at `a`. */
  ghost predicate LastAt(s: string, part: string, a: nat) {
    && |part| <= a <= |s| && Matches(s, part, a - |part|)
    && forall m: nat :: a - |part| < m <= |s| ==> !Matches(s, part, m)
  }

  /** The part stands at `i`, character by character. */
  ghost predicate Matches(t: string, c: string, i: nat) {
    i + |c| <= |t| && forall k :: 0 <= k < |c| ==> c[k] == t[i + k]
  }

  ghost predicate LeavesSome(t: string, c: string) {
    exists a: nat :: LastAt(t, c, a) && Strip(t[a..]) != ""
  }

  /** The command shows in the prompt line. */
  ghost predicate Overlaps(c: string, line: string) {
    exists j: nat :: CutAt(c, j) && Contains(c[..j] + line, c)
  }

  /** It does, and the prompt line does not end with it. */
  ghost predicate Lingers(c: string, line: string) {
    exists j: nat :: CutAt(c, j) && LeavesSome(c[..j] + line, c)
  }

  /** The end of the command looks like the beginning of an escape sequence, which is there until the rest arrives. */
  predicate VanishesFrom(c: string, m: nat) {
    m <= |c| && (m == 0 || c[m - 1] == '[') && forall i :: m <= i < |c| ==> IsParam(c[i])
  }

  ghost predicate CanVanish(c: string) {
    exists m: nat :: VanishesFrom(c, m)
  }

  /** What a command must satisfy on a device with this prompt line. */
  ghost predicate TellsApart(cmd: string, line: string, setsScene: bool) {
    var c := Strip(cmd);
    c == "" || !IsClean(c) ||
    if setsScene then '\r' !in c && !CanVanish(c) && !Overlaps(c, line)
    else '\r' in c || !Lingers(c, line)
  }

  // ----- last occurrences -----

  lemma OccurrenceHas(t: string, c: string, i: nat, k: nat)
    requires OccursAt(t, c, i) && k < |c|
    ensures t[i + k] == c[k] && c[k] in t
  {
    assert t[i..i + |c|][k] == t[i + k];
  }

  lemma OccursIff(t: string, c: string, i: nat)
    ensures OccursAt(t, c, i) <==> Matches(t, c, i)
  {
    if OccursAt(t, c, i) {
      forall k | 0 <= k < |c| ensures c[k] == t[i + k] {
        assert t[i..i + |c|][k] == t[i + k];
      }
    }
  }

  lemma OccursEverywhereIff(t: string, c: string)
    ensures forall i: nat :: OccursAt(t, c, i) <==> Matches(t, c, i)
  {
    forall i: nat ensures OccursAt(t, c, i) <==> Matches(t, c, i) { OccursIff(t, c, i); }
  }

  lemma AfterLastIff(s: string, part: string, a: nat)
    ensures AfterLast(s, part) == Some(a) <==> LastAt(s, part, a)
  {
    OccursEverywhereIff(s, part);
    var p := (i: nat) => OccursAt(s, part, i);
    var r := LastWhere(p, |s|);
    assert forall i: nat :: p(i) <==> Matches(s, part, i);
  }

  lemma NoneLast(s: string, part: string)
    requires forall i: nat :: !OccursAt(s, part, i)
    ensures AfterLast(s, part).None?
  {
    var p := (i: nat) => OccursAt(s, part, i);
    assert forall i: nat :: !p(i);
  }

  lemma MatchIsContained(t: string, c: string, i: nat)
    requires Matches(t, c, i)
    ensures Contains(t, c)
  {
    OccursIff(t, c, i);
  }

  /** A match in a part of a text is one in the text, and the other way round. */
  lemma Nested(n: string, t: string, b: nat, c: string, m: nat)
    requires Matches(n, t, b) && m + |c| <= |t|
    ensures Matches(n, c, b + m) <==> Matches(t, c, m)
  {
    if Matches(n, c, b + m) {
      forall k | 0 <= k < |c| ensures c[k] == t[m + k] {
        assert c[k] == n[b + m + k] && t[m + k] == n[b + (m + k)];
      }
    }
    if Matches(t, c, m) {
      forall k | 0 <= k < |c| ensures c[k] == n[b + m + k] {
        assert c[k] == t[m + k] && t[m + k] == n[b + (m + k)];
      }
    }
  }

  // ----- lines -----

  lemma PromptLineIsOneLine(line: string)
    requires IsPromptLine(line)
    ensures '\n' !in line && '\r' !in line && |line| >= 3
    ensures forall i :: 1 <= i < |line| ==> !IsOpening(line[i])
  {
  }

  lemma PromptOpens(t: string, p: nat, q: nat)
    requires PromptAt(t, p, q)
    ensures p < |t| && IsOpening(t[p])
  {
    PromptLineIsOneLine(t[p..q]);
    assert t[p..q][0] == t[p];
  }

  lemma RestIsNoPrompt(line: string, b: nat)
    requires IsPromptLine(line) && 1 <= b <= |line|
    ensures !EndsWithPrompt(line[b..])
  {
    PromptLineIsOneLine(line);
    var rest := line[b..];
    forall k | 0 <= k < |rest| ensures !IsOpening(rest[k]) {
      assert rest[k] == line[b + k];
    }
    forall p: nat, q: nat ensures !PromptAt(rest, p, q) {
      if PromptAt(rest, p, q) { PromptOpens(rest, p, q); }
    }
  }

  /** Splitting a text that ends in a prompt line. */
  lemma SplitAtPrompt(t: string, line: string) returns (y: string, e: string)
    requires EndsIn(t, line)
    ensures t == y + line + e && (y == "" || y[|y| - 1] == '\n') && (e == "" || e == "\n" || e == "\r\n")
    ensures IsPromptLine(line)
  {
    var p: nat, q: nat :| PromptAt(t, p, q) && t[p..q] == line;
    y, e := t[..p], t[q..];
    InThree(t, p, q);
  }

  lemma InThree(t: string, p: nat, q: nat)
    requires p <= q <= |t|
    ensures t == t[..p] + t[p..q] + t[q..]
  {
  }

  lemma BeforePrompt(n: string, line: string, p: nat, c: string, i: nat)
    requires GradedAt(n, line, p) && Matches(n, c, i) && i + |c| <= p
    ensures PromptAfterEcho(n, c)
  {
    OccursIff(n, c, i);
    OccursIff(n, line, p);
    assert n[p + |line|..] == "" || n[p + |line|..] == "\n";
    assert PromptAt(n, p, p + |line|);
  }

  lemma JoinAtPrompt(y: string, line: string, e: string)
    requires IsPromptLine(line) && (y == "" || y[|y| - 1] == '\n') && (e == "" || e == "\n" || e == "\r\n")
    ensures PromptAt(y + line + e, |y|, |y| + |line|) && EndsIn(y + line + e, line)
  {
    var t := y + line + e;
    assert t[|y|..|y| + |line|] == line && t[|y| + |line|..] == e;
  }

  /** A prompt cannot begin behind the first character of the prompt line. */
  lemma PromptBeginsBy(y: string, line: string, e: string, p: nat, q: nat)
    requires IsPromptLine(line) && (e == "" || e == "\n") && PromptAt(y + line + e, p, q)
    ensures p <= |y|
  {
    var t := y + line + e;
    PromptLineIsOneLine(line);
    PromptLineIsOneLine(t[p..q]);
    forall k | |y| <= k < |y| + |line| ensures t[k] != '\n' {
      assert t[k] == line[k - |y|];
    }
  }

  /** A graded text with its last prompt line at `p`. */
  ghost predicate GradedAt(n: string, line: string, p: nat) {
    && Matches(n, line, p) && IsPromptLine(line) && (p == 0 || n[p - 1] == '\n')
    && (|n| == p + |line| || (|n| == p + |line| + 1 && n[p + |line|] == '\n'))
  }

  /** Grading keeps the prompt line. */
  lemma GradedText(output: string, line: string) returns (p: nat)
    requires EndsIn(Clean(output), line)
    ensures GradedAt(Graded(output), line, p)
  {
    var x, f := SplitAtPrompt(Clean(output), line);
    PromptLineIsOneLine(line);
    NormOfSplit(x, line, f);
    NormOfEnd(f);
    NormEndsLine(x);
    p := |Norm(x)|;
    PartsOf(Norm(x), line, Norm(f));
  }

  lemma PartsOf(y: string, line: string, e: string)
    ensures var n := y + line + e; Matches(n, line, |y|) && (|y| > 0 ==> n[|y| - 1] == y[|y| - 1])
    ensures var n := y + line + e; e != "" ==> n[|y| + |line|] == e[0]
  {
  }

  lemma NormOfSplit(x: string, line: string, f: string)
    requires line != "" && '\r' !in line && line[0] != '\n'
    ensures Norm(x + line + f) == Norm(x) + line + Norm(f)
  {
    assert x + line + f == x + (line + f);
    NormConcat(x, line + f);
    NormConcat(line, f);
    NormWithoutCr(line);
    assert Norm(x) + (line + Norm(f)) == Norm(x) + line + Norm(f);
  }

  lemma NormOfEnd(f: string)
    requires f == "" || f == "\n" || f == "\r\n"
    ensures Norm(f) == "" || Norm(f) == "\n"
  {
    if f != "" {
      NormStep(f);
      assert f[Width(f)..] == "";
    }
  }

  lemma {:induction false} NormEndsLine(x: string)
    requires x != "" ==> x[|x| - 1] == '\n'
    ensures x != "" ==> Norm(x) != "" && Norm(x)[|Norm(x)| - 1] == '\n'
    ensures x == "" ==> Norm(x) == ""
    decreases |x|
  {
    if x != "" {
      NormStep(x);
      var r := x[Width(x)..];
      assert r != "" ==> r[|r| - 1] == x[|x| - 1];
      NormEndsLine(r);
      ConsLast(if x[0] == '\r' then '\n' else x[0], Norm(r));
    }
  }

  lemma ConsLast(c: char, s: string)
    ensures ([c] + s)[|[c] + s| - 1] == if s == "" then c else s[|s| - 1]
  {
  }

  // ----- commands are trimmed -----

  lemma CommandIsTrimmed(cmd: string)
    ensures Trimmed(Strip(cmd))
  {
    StripIsTrimmed(cmd);
  }

  /** A match in a graded text lies before the prompt line or reaches into it, but not beyond. */
  lemma WhereItIs(n: string, line: string, p: nat, c: string, i: nat) returns (j: nat)
    requires GradedAt(n, line, p) && c != "" && Trimmed(c) && Matches(n, c, i) && i + |c| > p
    ensures i + |c| <= p + |line| && j <= p && CutAt(c, j)
    ensures if i >= p then j == 0 else i + j == p
  {
    assert c[|c| - 1] == n[i + (|c| - 1)];
    j := if i >= p then 0 else p - i;
    if j > 0 {
      assert c[j - 1] == n[i + (j - 1)];
    }
  }

  /** The same match in the command's beginning and the prompt line alone. */
  lemma Recut(n: string, line: string, p: nat, c: string, i: nat) returns (j: nat, t: string)
    requires GradedAt(n, line, p) && c != "" && Trimmed(c) && Matches(n, c, i) && i + |c| > p
    ensures CutAt(c, j) && t == c[..j] + line && j <= p && Matches(n, t, p - j)
    ensures p - j <= i && i - (p - j) + |c| <= |t| && Matches(t, c, i - (p - j))
  {
    j := WhereItIs(n, line, p, c, i);
    t := c[..j] + line;
    forall k | 0 <= k < |t| ensures t[k] == n[p - j + k] {
      if k < j {
        assert t[k] == c[k] == n[i + k];
      } else {
        assert t[k] == line[k - j] == n[p + (k - j)];
      }
    }
    Nested(n, t, p - j, c, i - (p - j));
  }

  lemma OverlapFound(n: string, line: string, p: nat, c: string, i: nat)
    requires GradedAt(n, line, p) && c != "" && Trimmed(c) && Matches(n, c, i) && i + |c| > p
    ensures Overlaps(c, line)
  {
    var j, t := Recut(n, line, p, c, i);
    MatchIsContained(t, c, i - (p - j));
  }

  lemma LastStaysLast(n: string, t: string, b: nat, c: string, a: nat)
    requires Matches(n, t, b) && LastAt(n, c, a) && b + |c| <= a <= b + |t|
    ensures LastAt(t, c, a - b)
  {
    Nested(n, t, b, c, a - |c| - b);
    forall m: nat | a - b - |c| < m <= |t| ensures !Matches(t, c, m) {
      if m + |c| <= |t| { Nested(n, t, b, c, m); }
    }
  }

  lemma LeavesIt(n: string, t: string, b: nat, c: string, a: nat)
    requires Matches(n, t, b) && LastAt(n, c, a) && b + |c| <= a <= b + |t| && Strip(n[a..b + |t|]) != ""
    ensures LeavesSome(t, c)
  {
    LastStaysLast(n, t, b, c, a);
    TailOf(n, t, b, a - b);
  }

  lemma LingeringFound(n: string, line: string, p: nat, c: string, a: nat)
    requires GradedAt(n, line, p) && c != "" && Trimmed(c) && LastAt(n, c, a) && p < a <= p + |line|
    requires Strip(n[a..p + |line|]) != ""
    ensures Lingers(c, line)
  {
    var j, t := Recut(n, line, p, c, a - |c|);
    assert (p - j) + |t| == p + |line|;
    LeavesIt(n, t, p - j, c, a);
  }

  lemma TailOf(n: string, t: string, b: nat, k: nat)
    requires Matches(n, t, b) && k <= |t|
    ensures t[k..] == n[b + k..b + |t|]
  {
    forall m | 0 <= m < |t| - k ensures t[k..][m] == n[b + k..b + |t|][m] {
      assert t[k + m] == n[b + (k + m)];
    }
  }

  lemma EchoOnly(output: string, cmd: string, rec: Recognizer, rest: string)
    requires var a := AfterLast(Graded(output), Strip(cmd));
      a.Some? && a.value <= |Graded(output)| && Graded(output)[a.value..] == rest
    ensures Strip(rest) == "" && '\n' !in rest ==> OnlyEcho(output, cmd, rec)
    ensures Strip(rest) != "" && '\n' !in rest ==> (OnlyEcho(output, cmd, rec) <==> rec.prompt(rest))
  {
    if '\n' !in rest {
      LinesOfLine(rest);
      assert NonBlank([rest]) == (if Strip(rest) != "" then [rest] else []) + NonBlank([]);
    }
  }

  lemma EchoOnlyAtLineEnd(output: string, cmd: string, rec: Recognizer, rest: string)
    requires var a := AfterLast(Graded(output), Strip(cmd));
      a.Some? && a.value <= |Graded(output)| && Graded(output)[a.value..] == rest + "\n"
    requires '\n' !in rest && Strip(rest) == ""
    ensures OnlyEcho(output, cmd, rec)
  {
    LinesOfTwo(rest, "");
    assert rest + "\n" + "" == rest + "\n" && Lines("") == [""];
    assert [rest] + [""] == [rest, ""] && [rest, ""][1..] == [""] && [""][1..] == [];
    assert Strip("") == "";
    assert NonBlank([""]) == [] && NonBlank([rest, ""]) == NonBlank([""]);
  }

  // ----- enough: commands that show in the prompt line are the only trouble -----

  lemma NoEchoIsBare(output: string, cmd: string, rec: Recognizer)
    requires AfterLast(Graded(output), Strip(cmd)).None?
    ensures OnlyEcho(output, cmd, rec)
  {
    assert Lines("") == [""] && [""][1..] == [] && Strip("") == "";
    assert NonBlank(Lines("")) == [];
  }

  /** An echo that is last seen in the prompt line is bare, or the command lingers there. */
  lemma LastInPrompt(output: string, cmd: string, rec: Recognizer, line: string, p: nat, a: nat)
    requires GradedAt(Graded(output), line, p) && Strip(cmd) != ""
    requires LastAt(Graded(output), Strip(cmd), a) && a > p
    ensures OnlyEcho(output, cmd, rec) || Lingers(Strip(cmd), line)
  {
    var c, n := Strip(cmd), Graded(output);
    CommandIsTrimmed(cmd);
    var j := WhereItIs(n, line, p, c, a - |c|);
    if Strip(n[a..p + |line|]) != "" {
      LingeringFound(n, line, p, c, a);
    } else {
      AfterLastIff(n, c, a);
      BareInPrompt(output, cmd, rec, line, p, a);
    }
  }

  lemma BareInPrompt(output: string, cmd: string, rec: Recognizer, line: string, p: nat, a: nat)
    requires GradedAt(Graded(output), line, p) && p <= a <= p + |line|
    requires AfterLast(Graded(output), Strip(cmd)) == Some(a) && Strip(Graded(output)[a..p + |line|]) == ""
    ensures OnlyEcho(output, cmd, rec)
  {
    var n := Graded(output);
    var rest := n[a..p + |line|];
    PromptLineIsOneLine(line);
    TailOf(n, line, p, a - p);
    if |n| == p + |line| {
      assert n[a..] == rest;
      EchoOnly(output, cmd, rec, rest);
    } else {
      assert n[a..] == rest + "\n";
      EchoOnlyAtLineEnd(output, cmd, rec, rest);
    }
  }

  lemma EchoPlaces(output: string, cmd: string, rec: Recognizer, line: string)
    requires EndsIn(Clean(output), line) && Strip(cmd) != ""
    ensures OnlyEcho(output, cmd, rec) || Lingers(Strip(cmd), line) || PromptAfterEcho(Graded(output), Strip(cmd))
  {
    var p := GradedText(output, line);
    var a := AfterLast(Graded(output), Strip(cmd));
    if a.None? {
      NoEchoIsBare(output, cmd, rec);
    } else {
      AfterLastIff(Graded(output), Strip(cmd), a.value);
      if a.value <= p {
        BeforePrompt(Graded(output), line, p, Strip(cmd), a.value - |Strip(cmd)|);
      } else {
        LastInPrompt(output, cmd, rec, line, p, a.value);
      }
    }
  }

  lemma OrdinaryEnough(cmd: string, line: string, prefix: string, output: string, rec: Recognizer)
    requires Strip(cmd) != "" && !Lingers(Strip(cmd), line)
    requires Passes(cmd, false, prefix, output, rec) && EndsIn(Clean(output), line)
    ensures PromptAfterEcho(Graded(output), Strip(cmd))
  {
    EchoPlaces(output, cmd, rec, line);
  }

  /** A command without carriage returns that shows in the cleaned text shows in the graded one. */
  lemma GradingKeepsCommand(t: string, c: string)
    requires c != "" && Trimmed(c) && '\r' !in c && Contains(t, c)
    ensures Contains(Norm(t), c)
  {
    var i :| 0 <= i <= |t| && OccursAt(t, c, i);
    var x, z := t[..i], t[i + |c|..];
    assert t == x + (c + z);
    NormConcat(x, c + z);
    NormConcat(c, z);
    NormWithoutCr(c);
    assert Norm(t)[|Norm(x)|..|Norm(x)| + |c|] == c;
    assert OccursAt(Norm(t), c, |Norm(x)|);
  }

  lemma SettingEnough(cmd: string, line: string, prefix: string, output: string, rec: Recognizer)
    requires var c := Strip(cmd); c != "" && '\r' !in c && !CanVanish(c) && !Overlaps(c, line)
    requires Passes(cmd, true, prefix, output, rec) && EndsIn(Clean(output), line)
    ensures PromptAfterEcho(Graded(output), Strip(cmd))
  {
    var c, n := Strip(cmd), Graded(output);
    var p := GradedText(output, line);
    CommandIsTrimmed(cmd);
    EchoStays(prefix, output, c);
    GradingKeepsCommand(Clean(output), c);
    var i :| 0 <= i <= |n| && OccursAt(n, c, i);
    OccursIff(n, c, i);
    if i + |c| > p {
      OverlapFound(n, line, p, c, i);
    }
    BeforePrompt(n, line, p, c, i);
  }

  // ----- cleaning more text -----

  lemma {:induction false} ParamRunIs(s: string, k: nat)
    requires k <= |s| && (forall i :: 0 <= i < k ==> IsParam(s[i])) && (k < |s| ==> !IsParam(s[k]))
    ensures ParamRun(s) == k
  {
    if k > 0 {
      ParamRunIs(s[1..], k - 1);
    }
  }

  /** A sequence that is complete in a beginning of the text is the same in the text. */
  lemma SequenceStays(p: string, s: string)
    requires p <= s && SequenceAt(p) > 0
    ensures SequenceAt(s) == SequenceAt(p)
  {
    ParamRunSays(p[2..]);
    assert forall i :: 0 <= i < |p| - 2 ==> p[2..][i] == s[2..][i];
    ParamRunIs(s[2..], ParamRun(p[2..]));
  }

  /** A sequence that only the longer text completes covers the whole beginning. */
  lemma CutSequence(p: string, s: string)
    requires p <= s && p != "" && SequenceAt(p) == 0 && SequenceAt(s) > 0
    ensures p[0] == ESC && (|p| >= 2 ==> p[1] == '[' && forall i :: 2 <= i < |p| ==> IsParam(p[i]))
  {
    var k := ParamRun(s[2..]);
    ParamRunSays(s[2..]);
    assert forall i :: 2 <= i < |p| ==> p[i] == s[i] == s[2..][i - 2];
    if |p| > k + 2 {
      assert forall i :: 0 <= i < |p| - 2 ==> p[2..][i] == s[2..][i];
      ParamRunIs(p[2..], k);
    }
  }

  predicate IsTail(tail: string) {
    tail == "" || (tail[0] == '[' && forall i :: 1 <= i < |tail| ==> IsParam(tail[i]))
  }

  lemma CleanOfCut(p: string)
    requires p != "" && p[0] == ESC && (|p| >= 2 ==> p[1] == '[' && forall i :: 2 <= i < |p| ==> IsParam(p[i]))
    requires SequenceAt(p) == 0
    ensures Clean(p) == p[1..] && IsTail(p[1..])
  {
    assert IsClean(p[1..]);
    CleanKeepsClean(p[1..]);
    assert DropSequences(p) == [ESC] + DropSequences(p[1..]);
    assert ([ESC] + DropSequences(p[1..]))[1..] == DropSequences(p[1..]);
  }

  lemma CleanNext(s: string)
    requires s != ""
    ensures Clean(s) == if SequenceAt(s) > 0 then Clean(s[SequenceAt(s)..])
                        else (if IsControl(s[0]) then [] else [s[0]]) + Clean(s[1..])
  {
    if SequenceAt(s) == 0 {
      assert DropSequences(s) == [s[0]] + DropSequences(s[1..]);
      assert ([s[0]] + DropSequences(s[1..]))[1..] == DropSequences(s[1..]);
    }
  }

  lemma Under(head: string, c: string, tail: string, whole: string)
    requires c <= whole
    ensures head + (c + tail) == head + c + tail && head + c <= head + whole
  {
  }

  /** What cleaning keeps of a character that begins no sequence. */
  function Head(c: char): string {
    if IsControl(c) then [] else [c]
  }

  lemma OneCharacter(p: string, s: string, c: string, tail: string)
    requires p <= s && p != "" && SequenceAt(p) == 0 && SequenceAt(s) == 0
    requires Clean(p[1..]) == c + tail && c <= Clean(s[1..])
    ensures Clean(p) == Head(p[0]) + c + tail && Head(p[0]) + c <= Clean(s)
  {
    CleanNext(p);
    CleanNext(s);
    Under(Head(p[0]), c, tail, Clean(s[1..]));
  }

  lemma OneSequence(p: string, s: string)
    requires p <= s && p != "" && SequenceAt(p) > 0
    ensures SequenceAt(p) <= |p| && p[SequenceAt(p)..] <= s[SequenceAt(p)..]
    ensures Clean(p) == Clean(p[SequenceAt(p)..]) && Clean(s) == Clean(s[SequenceAt(p)..])
  {
    SequenceStays(p, s);
    CleanNext(p);
    CleanNext(s);
  }

  /** Cleaning a beginning gives a beginning of the cleaned text, but for an escape sequence that is cut off. */
  lemma {:induction false} CleanOfPrefix(p: string, s: string) returns (common: string, tail: string)
    requires p <= s
    ensures Clean(p) == common + tail && common <= Clean(s) && IsTail(tail)
    decreases |p|
  {
    common, tail := "", "";
    if p == "" {
      assert DropSequences("") == "";
    } else if SequenceAt(p) > 0 {
      OneSequence(p, s);
      common, tail := CleanOfPrefix(p[SequenceAt(p)..], s[SequenceAt(p)..]);
    } else if SequenceAt(s) == 0 {
      var c;
      c, tail := CleanOfPrefix(p[1..], s[1..]);
      OneCharacter(p, s, c, tail);
      common := Head(p[0]) + c;
    } else {
      CutSequence(p, s);
      CleanOfCut(p);
      tail := p[1..];
      assert "" + tail == tail;
    }
  }

  /** What was echoed stays in the cleaned text unless it ended in a sequence that was cut off. */
  lemma EchoStays(prefix: string, output: string, c: string)
    requires prefix <= output && c != "" && Contains(Clean(prefix), c) && !CanVanish(c)
    ensures Contains(Clean(output), c)
  {
    var common, tail := CleanOfPrefix(prefix, output);
    var i :| 0 <= i <= |Clean(prefix)| && OccursAt(Clean(prefix), c, i);
    if i + |c| <= |common| {
      assert Clean(output)[i..i + |c|] == Clean(prefix)[i..i + |c|];
      assert OccursAt(Clean(output), c, i);
    } else {
      EchoInTail(common, tail, c, i);
    }
  }

  lemma EchoInTail(common: string, tail: string, c: string, i: nat)
    requires IsTail(tail) && OccursAt(common + tail, c, i) && i + |c| > |common|
    ensures CanVanish(c)
  {
    var s := common + tail;
    var m := if i <= |common| then |common| - i + 1 else 0;
    assert forall k :: 0 <= k < |c| ==> c[k] == s[i + k];
    assert VanishesFrom(c, m);
  }

  // ----- needed: each other command is confused on some output -----

  /** Text without control characters is graded as it is. */
  lemma PlainText(t: string)
    requires IsClean(t)
    ensures Clean(t) == t && ('\r' !in t ==> Graded(t) == t)
  {
    CleanKeepsClean(t);
    if '\r' !in t { NormWithoutCr(t); }
  }

  lemma TooLongToPrecede(y: string, line: string, c: string)
    requires IsPromptLine(line) && |c| > |y|
    ensures !PromptAfterEcho(y + line, c)
  {
    forall i: nat, p: nat, q: nat | OccursAt(y + line, c, i) && PromptAt(y + line, p, q) ensures i + |c| > p {
      assert y + line + "" == y + line;
      PromptBeginsBy(y, line, "", p, q);
    }
  }

  /** The output is the beginning of the command, up to a line break, and the prompt line. */
  lemma OverlapConfuses(c: string, line: string, j: nat) returns (output: string)
    requires IsPromptLine(line) && IsClean(line) && c != "" && IsClean(c) && '\r' !in c
    requires CutAt(c, j) && Contains(c[..j] + line, c)
    ensures output == c[..j] + line && Clean(output) == output && Graded(output) == output && Contains(output, c)
    ensures EndsIn(Clean(output), line) && !PromptAfterEcho(Graded(output), c)
  {
    output := c[..j] + line;
    PromptLineIsOneLine(line);
    PlainText(output);
    JoinAtPrompt(c[..j], line, "");
    assert c[..j] + line + "" == output;
    TooLongToPrecede(c[..j], line, c);
  }

  lemma LingeringIsNotBare(output: string, cmd: string, line: string, j: nat, a: nat, rec: Recognizer)
    requires CutAt(Strip(cmd), j) && output == Strip(cmd)[..j] + line && Graded(output) == output
    requires Recognizes(rec) && IsPromptLine(line) && LastAt(output, Strip(cmd), a) && Strip(output[a..]) != ""
    ensures !OnlyEcho(output, cmd, rec)
  {
    var rest := output[a..];
    AfterLastIff(output, Strip(cmd), a);
    DropInside(Strip(cmd)[..j], line, a - j);
    PromptLineIsOneLine(line);
    RestIsNoPrompt(line, a - j);
    EchoOnly(output, cmd, rec, rest);
  }

  lemma DropInside(x: string, t: string, n: nat)
    requires n <= |t|
    ensures (x + t)[|x| + n..] == t[n..]
  {
  }

  lemma LingeringConfuses(cmd: string, line: string, rec: Recognizer) returns (output: string)
    requires Recognizes(rec) && IsPromptLine(line) && IsClean(line)
    requires var c := Strip(cmd); c != "" && IsClean(c) && '\r' !in c && Lingers(c, line)
    ensures Passes(cmd, false, output, output, rec) && EndsIn(Clean(output), line)
    ensures !PromptAfterEcho(Graded(output), Strip(cmd))
  {
    var c := Strip(cmd);
    var j: nat :| CutAt(c, j) && LeavesSome(c[..j] + line, c);
    var a: nat :| LastAt(c[..j] + line, c, a) && Strip((c[..j] + line)[a..]) != "";
    MatchIsContained(c[..j] + line, c, a - |c|);
    output := OverlapConfuses(c, line, j);
    LingeringIsNotBare(output, cmd, line, j, a, rec);
  }

  lemma CarriageReturnConfuses(c: string, line: string) returns (output: string)
    requires IsPromptLine(line) && IsClean(line) && IsClean(c) && '\r' in c
    ensures Contains(Clean(output), c) && EndsIn(Clean(output), line) && !PromptAfterEcho(Graded(output), c)
  {
    output := c + "\n" + line;
    CleanKeepsClean(output);
    JoinAtPrompt(c + "\n", line, "");
    assert c + "\n" + line + "" == output;
    assert OccursAt(output, c, 0) by { assert output[0..|c|] == c; }
    NormHasNoCr(output);
    NoCrNoOccurrence(Graded(output), c);
  }

  lemma NoCrNoOccurrence(n: string, c: string)
    requires '\r' in c && '\r' !in n
    ensures forall i: nat :: !OccursAt(n, c, i)
  {
    var k :| 0 <= k < |c| && c[k] == '\r';
    forall i: nat ensures !OccursAt(n, c, i) {
      if OccursAt(n, c, i) { OccurrenceHas(n, c, i, k); }
    }
  }

  lemma {:induction false} CleanConcat(u: string, s: string)
    requires IsClean(u)
    ensures Clean(u + s) == u + Clean(s)
  {
    if u == "" {
      assert u + s == s;
    } else {
      assert (u + s)[1..] == u[1..] + s && (u + s)[0] == u[0] != ESC;
      CleanNext(u + s);
      CleanConcat(u[1..], s);
      assert [u[0]] + (u[1..] + Clean(s)) == u + Clean(s);
    }
  }

  lemma SequenceCut(d: string)
    requires forall i :: 0 <= i < |d| ==> IsParam(d[i])
    ensures Clean([ESC, '['] + d) == "[" + d
  {
    var p := [ESC, '['] + d;
    assert p[2..] == d && p[1..] == "[" + d;
    ParamRunIs(d, |d|);
    CleanOfCut(p);
  }

  lemma SequenceWhole(d: string, s: string)
    requires forall i :: 0 <= i < |d| ==> IsParam(d[i])
    ensures Clean([ESC, '['] + d + "m" + s) == Clean(s)
  {
    var w := [ESC, '['] + d + "m" + s;
    assert w[2..] == d + "m" + s && w[|d| + 3..] == s && w[|d| + 2] == 'm';
    ParamRunIs(d + "m" + s, |d|);
    CleanNext(w);
  }

  /** A command that ends like a cut sequence, in the part before that and the part inside. */
  function Before(c: string, m: nat): string
    requires m <= |c|
  {
    if m == 0 then "" else c[..m - 1]
  }

  lemma VanishedText(u: string, d: string, rest: string)
    requires IsClean(u) && IsClean(rest) && forall i :: 0 <= i < |d| ==> IsParam(d[i])
    ensures var prefix, output := u + ([ESC, '['] + d), u + ([ESC, '['] + d + "m" + rest);
      prefix <= output && Clean(prefix) == u + ("[" + d) && Clean(output) == u + rest
  {
    var prefix, output := u + ([ESC, '['] + d), u + ([ESC, '['] + d + "m" + rest);
    assert output == prefix + ("m" + rest);
    SequenceCut(d);
    SequenceWhole(d, rest);
    CleanConcat(u, [ESC, '['] + d);
    CleanConcat(u, [ESC, '['] + d + "m" + rest);
    CleanKeepsClean(rest);
  }

  lemma VanishedShows(c: string, m: nat)
    requires VanishesFrom(c, m)
    ensures Contains(Before(c, m) + ("[" + c[m..]), c)
  {
    var t := Before(c, m) + ("[" + c[m..]);
    assert OccursAt(t, c, if m == 0 then 1 else 0);
  }

  lemma VanishedEndsIn(u: string, line: string)
    requires IsPromptLine(line) && '\r' !in u
    ensures EndsIn(u + ("\n" + line), line) && Norm(u + ("\n" + line)) == u + "\n" + line
  {
    PromptLineIsOneLine(line);
    assert u + ("\n" + line) == (u + "\n") + line == (u + "\n") + line + "";
    NormWithoutCr(u + ("\n" + line));
    JoinAtPrompt(u + "\n", line, "");
  }

  lemma PromptEnds(t: string, p: nat, q: nat)
    requires PromptAt(t, p, q)
    ensures var last := t[|t| - 1]; IsClosing(last) || IsBlank(last) || last == '\n'
  {
    PromptLineIsOneLine(t[p..q]);
    if q == |t| {
      var k :| ClosesAt(t[p..q], k);
      assert t[p..q][q - p - 1] == t[q - 1];
    } else {
      assert t[q..][|t| - q - 1] == t[|t| - 1];
    }
  }

  /** An escape sequence that is cut off ends in no prompt. */
  lemma CutIsNoPrompt(u: string, d: string)
    requires forall i :: 0 <= i < |d| ==> IsParam(d[i])
    ensures !EndsWithPrompt(u + ("[" + d))
  {
    var t := u + ("[" + d);
    forall p: nat, q: nat ensures !PromptAt(t, p, q) {
      if PromptAt(t, p, q) {
        PromptEnds(t, p, q);
      }
    }
  }

  /** The echo disappears when the rest of an escape sequence arrives. */
  lemma VanishingConfuses(c: string, line: string) returns (prefix: string, output: string)
    requires IsPromptLine(line) && IsClean(line) && c != "" && IsClean(c) && '\r' !in c && CanVanish(c)
    ensures prefix <= output && Contains(Clean(prefix), c) && !EndsWithPrompt(Clean(prefix))
    ensures EndsIn(Clean(output), line) && !PromptAfterEcho(Graded(output), c)
  {
    var m: nat :| VanishesFrom(c, m);
    var u := Before(c, m);
    prefix := u + ([ESC, '['] + c[m..]);
    output := u + ([ESC, '['] + c[m..] + "m" + ("\n" + line));
    VanishedText(u, c[m..], "\n" + line);
    VanishedShows(c, m);
    CutIsNoPrompt(u, c[m..]);
    VanishedEndsIn(u, line);
    VanishedIsNotBefore(c, m, line);
  }

  lemma VanishedIsNotBefore(c: string, m: nat, line: string)
    requires IsPromptLine(line) && c != "" && VanishesFrom(c, m)
    ensures !PromptAfterEcho(Before(c, m) + "\n" + line, c)
  {
    var u := Before(c, m);
    var t := u + "\n" + line;
    forall i: nat, p: nat, q: nat | OccursAt(t, c, i) && PromptAt(t, p, q) ensures i + |c| > p {
      assert t + "" == t && t[|u|] == '\n';
      PromptBeginsBy(u + "\n", line, "", p, q);
      OccurrenceHas(t, c, i, |c| - 1);
    }
  }

  // ----- the theorem -----

  /** Every read that passes, on a device with this prompt line, has its prompt after its echo. */
  ghost predicate AlwaysAfter(cmd: string, line: string, setsScene: bool, rec: Recognizer) {
    forall prefix, output | Passes(cmd, setsScene, prefix, output, rec) && EndsIn(Clean(output), line) ::
      PromptAfterEcho(Graded(output), Strip(cmd))
  }

  lemma Enough(cmd: string, line: string, setsScene: bool, rec: Recognizer, prefix: string, output: string)
    requires TellsApart(cmd, line, setsScene)
    requires Passes(cmd, setsScene, prefix, output, rec) && EndsIn(Clean(output), line)
    ensures PromptAfterEcho(Graded(output), Strip(cmd))
  {
    var c := Strip(cmd);
    EchoIsClean(prefix, c);
    if setsScene {
      SettingEnough(cmd, line, prefix, output, rec);
    } else {
      if '\r' in c {
        NothingLastWithCr(output, c);
        NoEchoIsBare(output, cmd, rec);
      }
      OrdinaryEnough(cmd, line, prefix, output, rec);
    }
  }

  lemma EchoIsClean(prefix: string, c: string)
    requires Contains(Clean(prefix), c)
    ensures IsClean(c)
  {
    var t := Clean(prefix);
    CleanIsIdempotent(prefix);
    var i :| 0 <= i <= |t| && OccursAt(t, c, i);
    assert forall k :: 0 <= k < |c| ==> c[k] == t[i + k];
  }

  lemma NothingLastWithCr(output: string, c: string)
    requires '\r' in c
    ensures AfterLast(Graded(output), c).None?
  {
    NormHasNoCr(Clean(output));
    NoCrNoOccurrence(Graded(output), c);
    NoneLast(Graded(output), c);
  }

  /** An output on which a command that cannot be told apart passes without a prompt after its echo. */
  lemma Confusion(cmd: string, line: string, setsScene: bool, rec: Recognizer) returns (prefix: string, output: string)
    requires Recognizes(rec) && IsPromptLine(line) && IsClean(line) && !TellsApart(cmd, line, setsScene)
    ensures Passes(cmd, setsScene, prefix, output, rec) && EndsIn(Clean(output), line)
    ensures prefix == output || !EndsWithPrompt(Clean(prefix))
    ensures !PromptAfterEcho(Graded(output), Strip(cmd))
  {
    var c := Strip(cmd);
    if !setsScene {
      output := LingeringConfuses(cmd, line, rec);
      prefix := output;
    } else if '\r' in c {
      output := CarriageReturnConfuses(c, line);
      prefix := output;
    } else if CanVanish(c) {
      prefix, output := VanishingConfuses(c, line);
    } else {
      var j: nat :| CutAt(c, j) && Contains(c[..j] + line, c);
      output := OverlapConfuses(c, line, j);
      prefix := output;
    }
  }

  /**
   A command has its prompt after its echo on every output that it passes with, exactly when it can be told apart from
   the device's prompt line: an ordinary command must not show in that line with something behind it; a command that
   only sets the scene must not show there at all, nor look like a cut escape sequence.
   */
  lemma PromptFollowsEchoIff(cmd: string, line: string, setsScene: bool, rec: Recognizer)
    requires Recognizes(rec) && IsPromptLine(line) && IsClean(line)
    ensures AlwaysAfter(cmd, line, setsScene, rec) <==> TellsApart(cmd, line, setsScene)
  {
    if TellsApart(cmd, line, setsScene) {
      forall prefix, output | Passes(cmd, setsScene, prefix, output, rec) && EndsIn(Clean(output), line)
        ensures PromptAfterEcho(Graded(output), Strip(cmd))
      {
        Enough(cmd, line, setsScene, rec, prefix, output);
      }
    } else {
      var prefix, output := Confusion(cmd, line, setsScene, rec);
    }
  }

  // ----- steps of the shell -----

  /** The line that the prompt was recognised in. */
  lemma FinalLine(output: string) returns (line: string)
    requires EndsWithPrompt(Clean(output))
    ensures IsPromptLine(line) && IsClean(line) && EndsIn(Clean(output), line)
  {
    var t := Clean(output);
    CleanIsIdempotent(output);
    var p: nat, q: nat :| PromptAt(t, p, q);
    line := t[p..q];
    assert forall k :: 0 <= k < |line| ==> line[k] == t[p + k];
  }

  lemma SuccessGrade(c: Command, meta: Meta, extracting: Trouble, output: string, rec: Recognizer)
    requires Grade(c, meta, extracting) == SUCCESS && meta.echoSeen && meta.reason.PROMPT_DETECTED?
    requires meta.quality == QualityFor(output, c.text, rec, meta.echoSeen, meta.gotOutput, meta.reason)
    ensures OnlyEcho(output, c.text, rec) ==> c.setsScene
  {
  }

  /** The step of a turn that saw its prompt and succeeded, and the read behind it. */
  ghost predicate Succeeds(
    c: Command, turn: Turn, step: Step, output: string, used: nat, pace: Pace, rec: Recognizer)
  {
    && Clocked(turn.ticks, turn.start, pace.timeout)
    && StepOk(c, turn, step.index, step, pace, rec) && step.status == SUCCESS && step.read.Some? && step.read.value.promptDetected
    && (exists finished :: ReadOk(output, step.read.value, ByPrompt, c.text, turn.ticks, turn.start, pace, finished, used, rec))
  }

  /** What a successful step that saw its prompt says about what was read. */
  lemma SuccessIsRead(c: Command, turn: Turn, step: Step, output: string, used: nat, pace: Pace, rec: Recognizer) returns (n: nat)
    requires Succeeds(c, turn, step, output, used, pace, rec)
    ensures n <= used <= |turn.ticks| && EchoIn(Received(turn.ticks[..n]), c.text)
    ensures output == Received(turn.ticks[..used]) && rec.prompt(Clean(output))
    ensures var m := step.read.value;
      && m.echoSeen && m.reason.PROMPT_DETECTED? && Grade(c, m, turn.extracting) == SUCCESS
      && m.quality == QualityFor(output, c.text, rec, m.echoSeen, m.gotOutput, m.reason)
  {
    var finished :| ReadOk(output, step.read.value, ByPrompt, c.text, turn.ticks, turn.start, pace, finished, used, rec);
    n := PromptedRead(output, step.read.value, c.text, turn.ticks, turn.start, pace, finished, used, rec);
  }

  lemma PromptedRead(output: string, m: Meta, cmd: string, ticks: seq<Tick>, start: int, pace: Pace, finished: int, used: nat, rec: Recognizer)
    returns (n: nat)
    requires ReadOk(output, m, ByPrompt, cmd, ticks, start, pace, finished, used, rec)
    ensures n <= used <= |ticks| && EchoIn(Received(ticks[..n]), cmd)
    ensures output == Received(ticks[..used]) && rec.prompt(Clean(output))
    ensures m.promptDetected && m.echoSeen && m.reason.PROMPT_DETECTED?
    ensures m.quality == QualityFor(output, cmd, rec, m.echoSeen, m.gotOutput, m.reason)
  {
    n :| 0 <= n <= used && EchoIn(Received(ticks[..n]), cmd);
  }

  /** A successful step that saw its prompt is such a read, on a device with some prompt line. */
  lemma SuccessPasses(c: Command, turn: Turn, step: Step, output: string, used: nat, pace: Pace, rec: Recognizer)
    returns (prefix: string, line: string)
    requires Recognizes(rec) && Succeeds(c, turn, step, output, used, pace, rec)
    ensures Passes(c.text, c.setsScene, prefix, output, rec) && EndsIn(Clean(output), line)
    ensures IsPromptLine(line) && IsClean(line)
  {
    var n := SuccessIsRead(c, turn, step, output, used, pace, rec);
    prefix := Received(turn.ticks[..n]);
    ReceivedGrows(turn.ticks, n, used);
    line := FinalLine(output);
    SuccessGrade(c, step.read.value, turn.extracting, output, rec);
  }

  lemma {:induction false} ReceivedGrows(ticks: seq<Tick>, n: nat, m: nat)
    requires n <= m <= |ticks|
    ensures Received(ticks[..n]) <= Received(ticks[..m])
  {
    if n < m {
      ReceivedGrows(ticks, n, m - 1);
      ReceivedNext(ticks, m - 1);
    }
  }

  /** So a successful step that saw its prompt has it after its echo if its command can be told apart from that line. */
  lemma SuccessHasPromptAfterEcho(c: Command, turn: Turn, step: Step, output: string, used: nat, pace: Pace, rec: Recognizer)
    returns (line: string)
    requires Recognizes(rec) && Succeeds(c, turn, step, output, used, pace, rec)
    ensures IsPromptLine(line) && EndsIn(Clean(output), line)
    ensures TellsApart(c.text, line, c.setsScene) ==> PromptAfterEcho(Graded(output), Strip(c.text))
  {
    var prefix;
    prefix, line := SuccessPasses(c, turn, step, output, used, pace, rec);
    if TellsApart(c.text, line, c.setsScene) {
      Enough(c.text, line, c.setsScene, rec, prefix, output);
    }
  }

  function PassingMeta(cmd: string, output: string, rec: Recognizer): Meta {
    Meta(true, true, false, false, true, 0, PROMPT_DETECTED, QualityFor(output, cmd, rec, true, true, PROMPT_DETECTED))
  }

  lemma PassingGrade(c: Command, output: string, rec: Recognizer)
    requires OnlyEcho(output, c.text, rec) ==> c.setsScene
    ensures Grade(c, PassingMeta(c.text, output, rec), Trouble.Nothing) == SUCCESS
  {
  }

  /** The output in one chunk or in two, all at once, and nothing more before the deadline. */
  function ChunksOf(prefix: string, rest: string, timeout: nat): seq<Tick> {
    [Tick(0, Some(prefix), 0, false)] + (if rest == "" then [] else [Tick(0, Some(rest), 0, false)])
      + [Tick(timeout, None, timeout, false)]
  }

  /** The number of chunks. */
  function Chunks(rest: string): nat {
    if rest == "" then 1 else 2
  }

  function TurnOf(prefix: string, rest: string, timeout: nat): Turn {
    Turn(false, false, Trouble.Nothing, ChunksOf(prefix, rest, timeout), 0, 0, Trouble.Nothing)
  }

  function PassingStep(c: Command, output: string, rec: Recognizer): Step {
    Step(0, c.name, SUCCESS, Some(PassingMeta(c.text, output, rec)))
  }

  lemma ChunksAreClocked(prefix: string, rest: string, timeout: nat)
    requires prefix != ""
    ensures Clocked(ChunksOf(prefix, rest, timeout), 0, timeout)
  {
  }

  lemma ChunksAreReceived(prefix: string, rest: string, timeout: nat)
    ensures var ticks := ChunksOf(prefix, rest, timeout);
      && |ticks| == Chunks(rest) + 1 && Received(ticks[..0]) == "" && Received(ticks[..1]) == prefix
      && Received(ticks[..Chunks(rest)]) == prefix + rest
      && forall n :: 0 <= n < Chunks(rest) ==> ticks[n].at == 0
  {
    var ticks := ChunksOf(prefix, rest, timeout);
    assert ticks[..0] == [] && ticks[0].chunk == Some(prefix);
    ReceivedNext(ticks, 0);
    if rest != "" {
      assert ticks[1].chunk == Some(rest);
      ReceivedNext(ticks, 1);
    }
  }

  /** The reader goes on for all the chunks: nothing can finish before the echo, and the first of two chunks ends in no prompt. */
  lemma ChunksGoOn(cmd: string, prefix: string, rest: string, pace: Pace, rec: Recognizer)
    requires pace.timeout > 0 && (rest != "" ==> !rec.prompt(Clean(prefix)))
    ensures GoesOn(cmd, ChunksOf(prefix, rest, pace.timeout), 0, pace, Chunks(rest), rec)
  {
    NoEchoInNothing(cmd);
    ChunksAreReceived(prefix, rest, pace.timeout);
    var ticks := ChunksOf(prefix, rest, pace.timeout);
    assert LastChunk(ticks, 1) == Some(0);
  }

  lemma ChunksAreRead(cmd: string, prefix: string, rest: string, pace: Pace, rec: Recognizer)
    requires pace.timeout > 0 && EchoIn(prefix, cmd) && rec.prompt(Clean(prefix + rest)) && (rest != "" ==> !rec.prompt(Clean(prefix)))
    ensures prefix != ""
    ensures var output := prefix + rest;
      ReadOk(output, PassingMeta(cmd, output, rec), ByPrompt, cmd, ChunksOf(prefix, rest, pace.timeout), 0, pace, 0, Chunks(rest), rec)
  {
    NoEchoInNothing(cmd);
    ChunksAreReceived(prefix, rest, pace.timeout);
    ChunksGoOn(cmd, prefix, rest, pace, rec);
    assert LastChunk(ChunksOf(prefix, rest, pace.timeout), Chunks(rest)).Some?;
    assert Finishes(cmd, rec, ChunksOf(prefix, rest, pace.timeout), Chunks(rest)) by {
      assert EchoIn(Received(ChunksOf(prefix, rest, pace.timeout)[..1]), cmd);
    }
  }

  /**
   And each such read is the read of a successful step: in one chunk, or in two when the first shows the echo but no prompt.
   */
  lemma PassingIsSuccess(c: Command, prefix: string, rest: string, pace: Pace, rec: Recognizer)
    requires Passes(c.text, c.setsScene, prefix, prefix + rest, rec) && rec.prompt(Clean(prefix + rest))
    requires pace.timeout > 0 && (rest != "" ==> !rec.prompt(Clean(prefix)))
    ensures var output := prefix + rest;
      Succeeds(c, TurnOf(prefix, rest, pace.timeout), PassingStep(c, output, rec), output, Chunks(rest), pace, rec)
  {
    var output, turn := prefix + rest, TurnOf(prefix, rest, pace.timeout);
    ChunksAreRead(c.text, prefix, rest, pace, rec);
    ChunksAreClocked(prefix, rest, pace.timeout);
    PassingGrade(c, output, rec);
    assert ReadOk(output, PassingMeta(c.text, output, rec), ByPrompt, c.text, turn.ticks, turn.start, pace, 0, Chunks(rest), rec);
    assert WasRead(c, turn, PassingMeta(c.text, output, rec), pace, rec);
  }

  /** Whatever the device sends before this line, and however it is cut into chunks. */
  ghost predicate EverySuccessAnswers(c: Command, line: string, pace: Pace, rec: Recognizer) {
    forall turn, step, output, used: nat | Succeeds(c, turn, step, output, used, pace, rec) ::
      EndsIn(Clean(output), line) ==> PromptAfterEcho(Graded(output), Strip(c.text))
  }

  lemma ConfusedSuccess(c: Command, line: string, pace: Pace, rec: Recognizer)
    returns (turn: Turn, step: Step, output: string, used: nat)
    requires Recognizes(rec) && IsPromptLine(line) && IsClean(line) && !TellsApart(c.text, line, c.setsScene) && pace.timeout > 0
    ensures Succeeds(c, turn, step, output, used, pace, rec)
    ensures EndsIn(Clean(output), line) && !PromptAfterEcho(Graded(output), Strip(c.text))
  {
    var prefix;
    prefix, output := Confusion(c.text, line, c.setsScene, rec);
    var rest := output[|prefix|..];
    assert prefix + rest == output;
    PassingIsSuccess(c, prefix, rest, pace, rec);
    turn, step, used := TurnOf(prefix, rest, pace.timeout), PassingStep(c, output, rec), Chunks(rest);
  }

  /**
   Every successful step of a command that ends in the device's prompt line has that prompt after its echo, exactly when
   the command can be told apart from the line.
   */
  lemma SuccessAnswersIff(c: Command, line: string, pace: Pace, rec: Recognizer)
    requires Recognizes(rec) && IsPromptLine(line) && IsClean(line) && pace.timeout > 0
    ensures EverySuccessAnswers(c, line, pace, rec) <==> TellsApart(c.text, line, c.setsScene)
  {
    if TellsApart(c.text, line, c.setsScene) {
      forall turn, step, output, used: nat | Succeeds(c, turn, step, output, used, pace, rec)
        ensures EndsIn(Clean(output), line) ==> PromptAfterEcho(Graded(output), Strip(c.text))
      {
        if EndsIn(Clean(output), line) {
          var prefix, other := SuccessPasses(c, turn, step, output, used, pace, rec);
          Enough(c.text, line, c.setsScene, rec, prefix, output);
        }
      }
    } else {
      var turn, step, output, used := ConfusedSuccess(c, line, pace, rec);
    }
  }

  lemma ShowsOnce(output: string)
    requires output == "<sw1>"
    ensures Contains(output, "sw") && LastAt(output, "sw", 3)
  {
    assert Matches(output, "sw", 1);
    forall m: nat | 1 < m <= |output| ensures !Matches(output, "sw", m) {
      assert "sw"[0] == 's' && (m < |output| ==> output[m + 0] != 's');
    }
    MatchIsContained(output, "sw", 1);
  }

  lemma PromptIsPlain(output: string)
    requires output == "<sw1>"
    ensures IsPromptLine(output) && IsClean(output) && Strip("sw") == "sw" && Strip("1>") == "1>"
  {
    StripTrimmed("sw");
    StripTrimmed("1>");
    assert ClosesAt(output, 4);
  }

  lemma PromptPasses(output: string, cmd: string, rec: Recognizer)
    requires Recognizes(rec) && output == "<sw1>" && cmd == "sw"
    ensures Passes(cmd, false, output, output, rec) && rec.prompt(Clean(output)) && !PromptAfterEcho(Graded(output), cmd)
  {
    PromptIsPlain(output);
    ShowsOnce(output);
    assert cmd[..0] + output == output && output[3..] == "1>";
    var same := OverlapConfuses(cmd, output, 0);
    LingeringIsNotBare(output, cmd, output, 0, 3, rec);
  }

  /** A device that answers the command `sw` with nothing but its prompt `<sw1>`: the step succeeds, though nothing follows an echo. */
  lemma PromptTakenForEcho(pace: Pace, rec: Recognizer)
    requires Recognizes(rec) && pace.timeout > 0
    ensures var c := Command("cmd_0", "sw", false);
      Succeeds(c, TurnOf("<sw1>", "", pace.timeout), PassingStep(c, "<sw1>", rec), "<sw1>", 1, pace, rec)
    ensures !PromptAfterEcho(Graded("<sw1>"), "sw")
  {
    PromptPasses("<sw1>", "sw", rec);
    assert "<sw1>" + "" == "<sw1>";
    PassingIsSuccess(Command("cmd_0", "sw", false), "<sw1>", "", pace, rec);
  }
}
