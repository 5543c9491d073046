/** The two normalisers of terminal streams. */
module Normalizer {
  import opened Basics
  import opened Text

  const ESC := '\U{1B}'

  predicate IsLetter(c: char) {
    'a' <= c <= 'z' || 'A' <= c <= 'Z'
  }

  predicate IsParam(c: char) {
    IsDigit(c) || c == ';'
  }

  function ParamRun(s: string): (k: nat)
    ensures k <= |s|
  {
    if s != "" && IsParam(s[0]) then 1 + ParamRun(s[1..]) else 0
  }

  /** The length of the escape sequence a text begins with: ESC, '[', digits and semicolons, a letter; 0 if there is none. */
  function SequenceAt(s: string): (k: nat)
    ensures k <= |s|
  {
    if |s| < 2 || s[0] != ESC || s[1] != '[' then 0
    else
      var k := 2 + ParamRun(s[2..]);
      if k < |s| && IsLetter(s[k]) then k + 1 else 0
  }

  /** Every escape sequence removed, from left to right. */
  function DropSequences(s: string): string
    decreases |s|
  {
    if s == "" then ""
    else
      var k := SequenceAt(s);
      if k > 0 then DropSequences(s[k..]) else [s[0]] + DropSequences(s[1..])
  }

  /** Control characters other than tab, line feed and carriage return. */
  predicate IsControl(c: char) {
    c <= '\U{08}' || c == '\U{0B}' || c == '\U{0C}' || '\U{0E}' <= c <= '\U{1F}' || c == '\U{7F}'
  }

  function DropControls(s: string): (r: string)
    ensures forall i :: 0 <= i < |r| ==> !IsControl(r[i])
  {
    if s == "" then "" else (if IsControl(s[0]) then [] else [s[0]]) + DropControls(s[1..])
  }

  function Clean(s: string): string {
    DropControls(DropSequences(s))
  }

  predicate IsClean(s: string) {
    forall i :: 0 <= i < |s| ==> !IsControl(s[i])
  }

  function SanitizeRaw(s: string): string {
    Norm(Clean(s))
  }

  lemma {:induction false} CleanKeepsClean(s: string)
    requires IsClean(s)
    ensures Clean(s) == s
  {
    if s != "" {
      assert s[0] != ESC && IsClean(s[1..]);
      CleanKeepsClean(s[1..]);
      assert SequenceAt(s) == 0;
      assert DropSequences(s)[1..] == DropSequences(s[1..]);
    }
  }

  /** Removing sequences may splice new ones together, but never past the removal of control characters. */
  lemma CleanIsIdempotent(s: string)
    ensures IsClean(Clean(s)) && Clean(Clean(s)) == Clean(s)
  {
    CleanKeepsClean(Clean(s));
  }

  /** One round of removing sequences is not enough by itself. */
  lemma SequencesCanSplice()
    ensures DropSequences([ESC, ESC, '[', 'm', '[', 'm']) == [ESC, '[', 'm']
  {
    var s := [ESC, ESC, '[', 'm', '[', 'm'];
    var t, u := [ESC, '[', 'm', '[', 'm'], ['[', 'm'];
    assert s[1..] == t && SequenceAt(s) == 0;
    assert t[2..] == ['m', '[', 'm'] && ParamRun(t[2..]) == 0 && SequenceAt(t) == 3 && t[3..] == u;
    assert u[1..] == ['m'] && SequenceAt(u) == 0;
    assert ['m'][1..] == "" && SequenceAt(['m']) == 0;
    assert DropSequences(['m']) == ['m'] + DropSequences("");
    assert DropSequences(u) == ['['] + DropSequences(['m']);
  }

  lemma {:induction false} NormStaysClean(s: string)
    requires IsClean(s)
    ensures IsClean(Norm(s))
    decreases |s|
  {
    if s != "" {
      NormStep(s);
      NormStaysClean(s[1..]);
      if |s| >= 2 {
        NormStaysClean(s[2..]);
      }
    }
  }

  lemma SanitizeIsIdempotent(s: string)
    ensures SanitizeRaw(SanitizeRaw(s)) == SanitizeRaw(s)
    ensures IsClean(SanitizeRaw(s)) && '\r' !in SanitizeRaw(s)
  {
    CleanIsIdempotent(s);
    NormStaysClean(Clean(s));
    NormHasNoCr(Clean(s));
    CleanKeepsClean(SanitizeRaw(s));
    NormWithoutCr(SanitizeRaw(s));
  }

  // ----- what cleaning does -----

  /** The control characters are the codes below 32 other than tab, line feed and carriage return, and code 127. */
  lemma ControlsAre(c: char)
    ensures IsControl(c) <==> (c < ' ' && c != '\t' && c != '\n' && c != '\r') || c as int == 127
    ensures IsLetter(c) <==> 'a' <= c <= 'z' || 'A' <= c <= 'Z'
    ensures IsParam(c) <==> '0' <= c <= '9' || c == ';'
  {
  }

  /** An escape sequence: code 27, an opening bracket, digits and semicolons, and a letter. */
  predicate IsSequence(s: string) {
    && |s| >= 3 && s[0] as int == 27 && s[1] == '[' && IsLetter(s[|s| - 1])
    && forall i :: 2 <= i < |s| - 1 ==> IsParam(s[i])
  }

  lemma {:induction false} ParamRunOf(d: string, c: char, s: string)
    requires (forall i :: 0 <= i < |d| ==> IsParam(d[i])) && !IsParam(c)
    ensures ParamRun(d + [c] + s) == |d|
  {
    if d != "" {
      assert (d + [c] + s)[1..] == d[1..] + [c] + s;
      ParamRunOf(d[1..], c, s);
    }
  }

  /** A sequence vanishes from the front of a text. */
  lemma SequenceVanishes(q: string, s: string)
    requires IsSequence(q)
    ensures Clean(q + s) == Clean(s)
  {
    var d, c := q[2..|q| - 1], q[|q| - 1];
    assert (q + s)[2..] == d + [c] + s;
    ParamRunOf(d, c, s);
    assert SequenceAt(q + s) == |q| && (q + s)[|q|..] == s;
  }

  /** A text begins with a sequence exactly when some beginning of it is one. */
  lemma {:induction false} ParamRunSays(s: string)
    ensures var k := ParamRun(s); (forall i :: 0 <= i < k ==> IsParam(s[i])) && (k < |s| ==> !IsParam(s[k]))
  {
    if s != "" && IsParam(s[0]) {
      ParamRunSays(s[1..]);
    }
  }

  lemma SequenceFound(s: string)
    requires SequenceAt(s) > 0
    ensures IsSequence(s[..SequenceAt(s)])
  {
    ParamRunSays(s[2..]);
    assert forall i :: 2 <= i < SequenceAt(s) - 1 ==> s[i] == s[2..][i - 2];
  }

  /** Any other character stays, unless it is a control character. */
  lemma OtherStays(s: string)
    requires s != "" && forall k :: 0 <= k <= |s| ==> !IsSequence(s[..k])
    ensures Clean(s) == (if IsControl(s[0]) then "" else [s[0]]) + Clean(s[1..])
  {
    if SequenceAt(s) > 0 {
      SequenceFound(s);
    }
    assert DropSequences(s) == [s[0]] + DropSequences(s[1..]);
    assert ([s[0]] + DropSequences(s[1..]))[1..] == DropSequences(s[1..]);
  }

  // ----- the structured stream -----

  predicate Trimmed(s: string) {
    s == "" || (!IsSpace(s[0]) && !IsSpace(s[|s| - 1]))
  }

  lemma {:induction false} StripLeftFacts(s: string)
    ensures var r := StripLeft(s); (r != "" ==> !IsSpace(r[0]) && r[|r| - 1] == s[|s| - 1]) && forall c :: c in r ==> c in s
  {
    if s != "" && IsSpace(s[0]) {
      StripLeftFacts(s[1..]);
    }
  }

  lemma {:induction false} StripRightFacts(s: string)
    ensures var r := StripRight(s); (r != "" ==> !IsSpace(r[|r| - 1]) && r[0] == s[0]) && forall c :: c in r ==> c in s
  {
    if s != "" && IsSpace(s[|s| - 1]) {
      StripRightFacts(s[..|s| - 1]);
    }
  }

  lemma StripIsTrimmed(s: string)
    ensures Trimmed(Strip(s)) && forall c :: c in Strip(s) ==> c in s
  {
    StripLeftFacts(s);
    StripRightFacts(StripLeft(s));
  }

  lemma StripTrimmed(s: string)
    requires Trimmed(s)
    ensures Strip(s) == s && Strip(s + "\n") == s
  {
    if s != "" {
      assert (s + "\n")[..|s|] == s;
    } else {
      assert s + "\n" == "\n" && "\n"[1..] == "";
    }
  }

  /** Keeping what a line has, one blank line at most between two that have something, and none in front. */
  function Kept(lines: seq<string>): seq<string> {
    if lines == [] then []
    else
      var before := Kept(lines[..|lines| - 1]);
      var stripped := Strip(lines[|lines| - 1]);
      if stripped != "" then before + [stripped]
      else if before != [] && Strip(before[|before| - 1]) != "" then before + [""]
      else before
  }

  function BreakRun(s: string): (k: nat)
    ensures k <= |s| && (forall i :: 0 <= i < k ==> s[i] == '\n') && (k < |s| ==> s[k] != '\n')
  {
    if s != "" && s[0] == '\n' then 1 + BreakRun(s[1..]) else 0
  }

  /** Three or more line feeds in a row become two. */
  function CollapseBreaks(s: string): string
    decreases |s|
  {
    if s == "" then ""
    else
      var k := BreakRun(s);
      if k >= 3 then "\n\n" + CollapseBreaks(s[k..])
      else [s[0]] + CollapseBreaks(s[1..])
  }

  function NormalizeStructured(text: string): string {
    Strip(CollapseBreaks(Join(Kept(Lines(Norm(Clean(text))))))) + "\n"
  }

  method KeepLines(all: seq<string>) returns (lines: seq<string>)
    ensures lines == Kept(all)
  {
    lines := [];
    var i := 0;
    while i < |all|
      invariant i <= |all| && lines == Kept(all[..i])
    {
      assert all[..i + 1][..i] == all[..i];
      var stripped := Strip(all[i]);
      if stripped != "" {
        lines := lines + [stripped];
      } else if lines != [] && Strip(lines[|lines| - 1]) != "" {
        lines := lines + [""];
      }
      i := i + 1;
    }
    assert all[..i] == all;
  }

  method NormalizeStructuredStream(text: string) returns (r: string)
    ensures r == NormalizeStructured(text)
  {
    var lines := KeepLines(Lines(Norm(Clean(text))));
    r := Strip(CollapseBreaks(Join(lines))) + "\n";
  }

  /** Trimmed lines without breaks, no two blank ones in a row, and something on the first. */
  ghost predicate Tidy(lines: seq<string>) {
    && (forall i :: 0 <= i < |lines| ==> Trimmed(lines[i]))
    && Avoid(lines, '\n')
    && (forall i :: 0 < i < |lines| ==> lines[i - 1] != "" || lines[i] != "")
    && (lines != [] ==> lines[0] != "")
  }

  lemma {:induction false} KeptIsTidy(lines: seq<string>)
    requires Avoid(lines, '\n')
    ensures Tidy(Kept(lines))
  {
    if lines != [] {
      var n := |lines| - 1;
      KeptIsTidy(lines[..n]);
      StripIsTrimmed(lines[n]);
      var before := Kept(lines[..n]);
      if before != [] {
        StripTrimmed(before[|before| - 1]);
      }
    }
  }

  lemma {:induction false} KeptKeepsTidy(lines: seq<string>)
    requires Tidy(lines)
    ensures Kept(lines) == lines
  {
    if lines != [] {
      var n := |lines| - 1;
      TidyPrefix(lines, n);
      KeptKeepsTidy(lines[..n]);
      StripTrimmed(lines[n]);
      if n > 0 {
        StripTrimmed(lines[n - 1]);
      }
    }
  }

  lemma TidyPrefix(lines: seq<string>, n: nat)
    requires Tidy(lines) && n <= |lines|
    ensures Tidy(lines[..n])
  {
  }

  ghost predicate NoTriple(s: string) {
    forall i :: 0 <= i < |s| - 2 ==> !(s[i] == '\n' && s[i + 1] == '\n' && s[i + 2] == '\n')
  }

  lemma {:induction false} CollapseIsNoOp(s: string)
    requires NoTriple(s)
    ensures CollapseBreaks(s) == s
  {
    if s != "" {
      assert |s| > 2 ==> !(s[0] == '\n' && s[0 + 1] == '\n' && s[0 + 2] == '\n');
      CollapseIsNoOp(s[1..]);
    }
  }

  /** Text of lines without two blank ones in a row has no three breaks in a row, and starts with at most one. */
  lemma {:induction false} JoinHasNoTriple(lines: seq<string>)
    requires Avoid(lines, '\n') && forall i :: 0 < i < |lines| ==> lines[i - 1] != "" || lines[i] != ""
    ensures NoTriple(Join(lines))
    ensures var s := Join(lines);
      && (lines != [] && lines[0] != "" ==> s != "" && s[0] != '\n')
      && (|s| >= 2 ==> s[0] != '\n' || s[1] != '\n')
  {
    if |lines| > 1 {
      JoinHasNoTriple(lines[1..]);
      var s, rest := Join(lines), Join(lines[1..]);
      var n := |lines[0]|;
      assert forall i :: 0 <= i < n ==> s[i] == lines[0][i] && s[i] in lines[0];
      assert s[n] == '\n' && forall i :: n < i < |s| ==> s[i] == rest[i - n - 1];
    } else if |lines| == 1 {
      assert forall i :: 0 <= i < |lines[0]| ==> lines[0][i] in lines[0];
    }
  }

  /** The collapse of blank lines leaves nothing for the later substitution to do. */
  lemma SubstitutionIsNoOp(text: string)
    ensures var s := Join(Kept(Lines(Norm(Clean(text))))); CollapseBreaks(s) == s
  {
    KeptIsTidy(Lines(Norm(Clean(text))));
    JoinHasNoTriple(Kept(Lines(Norm(Clean(text)))));
    CollapseIsNoOp(Join(Kept(Lines(Norm(Clean(text))))));
  }

  /** The lines without a blank last one. */
  function Core(lines: seq<string>): seq<string> {
    if lines != [] && lines[|lines| - 1] == "" then lines[..|lines| - 1] else lines
  }

  lemma CoreIsTidy(lines: seq<string>)
    requires Tidy(lines)
    ensures Tidy(Core(lines)) && (Core(lines) != [] ==> Core(lines)[|Core(lines)| - 1] != "")
  {
  }

  lemma {:induction false} JoinSnocBlank(lines: seq<string>)
    requires lines != []
    ensures Join(lines + [""]) == Join(lines) + "\n"
  {
    if |lines| == 1 {
      assert (lines + [""])[1..] == [""];
    } else {
      assert (lines + [""])[1..] == lines[1..] + [""];
      JoinSnocBlank(lines[1..]);
    }
  }

  /** The ends of the joined text are those of its first and last line. */
  lemma {:induction false} JoinEnds(lines: seq<string>)
    requires lines != [] && lines[0] != "" && lines[|lines| - 1] != ""
    ensures var s := Join(lines); s != "" && s[0] == lines[0][0] && s[|s| - 1] == lines[|lines| - 1][|lines[|lines| - 1]| - 1]
  {
    if |lines| > 1 {
      JoinLast(lines);
    }
  }

  lemma {:induction false} JoinLast(lines: seq<string>)
    requires lines != [] && lines[|lines| - 1] != ""
    ensures var s, last := Join(lines), lines[|lines| - 1]; s != "" && s[|s| - 1] == last[|last| - 1]
  {
    if |lines| > 1 {
      JoinLast(lines[1..]);
    }
  }

  lemma CoreTextIsTrimmed(core: seq<string>)
    requires Tidy(core) && (core != [] ==> core[|core| - 1] != "")
    ensures Trimmed(Join(core))
  {
    if core != [] {
      JoinEnds(core);
      assert Trimmed(core[0]) && Trimmed(core[|core| - 1]);
    }
  }

  lemma TextAndCore(lines: seq<string>)
    requires Tidy(lines)
    ensures Join(lines) == Join(Core(lines)) || Join(lines) == Join(Core(lines)) + "\n"
  {
    var core := Core(lines);
    if core != lines {
      assert lines == core + [""] && core != [];
      JoinSnocBlank(core);
    }
  }

  lemma StripOfJoin(lines: seq<string>)
    requires Tidy(lines)
    ensures Strip(Join(lines)) == Join(Core(lines)) && Trimmed(Join(Core(lines)))
  {
    CoreIsTidy(lines);
    CoreTextIsTrimmed(Core(lines));
    TextAndCore(lines);
    StripTrimmed(Join(Core(lines)));
  }

  lemma {:induction false} JoinChars(lines: seq<string>, c: char)
    requires c in Join(lines) && c != '\n'
    ensures exists i :: 0 <= i < |lines| && c in lines[i]
  {
    if |lines| > 1 && c !in lines[0] {
      JoinChars(lines[1..], c);
      var i :| 0 <= i < |lines| - 1 && c in lines[1..][i];
      assert c in lines[i + 1];
    }
  }

  /** Whatever is printed comes from the cleaned text. */
  lemma {:induction false} KeptChars(lines: seq<string>, i: nat, c: char)
    requires i < |Kept(lines)| && c in Kept(lines)[i]
    ensures exists j :: 0 <= j < |lines| && c in lines[j]
  {
    var n := |lines| - 1;
    var before := Kept(lines[..n]);
    if i < |before| {
      KeptChars(lines[..n], i, c);
      var j :| 0 <= j < n && c in lines[..n][j];
      assert c in lines[j];
    } else {
      StripIsTrimmed(lines[n]);
    }
  }

  lemma {:induction false} LinesChars(s: string, j: nat, c: char)
    requires j < |Lines(s)| && c in Lines(s)[j]
    ensures c in s
  {
    if c !in s {
      LinesKeepOut(s, c);
    }
  }

  lemma CleanedIsPlain(text: string)
    ensures var clean := Norm(Clean(text)); forall c :: c in clean ==> !IsControl(c) && c != '\r'
  {
    CleanIsIdempotent(text);
    NormStaysClean(Clean(text));
    NormHasNoCr(Clean(text));
  }

  /** A character of the kept text, other than a line feed, comes from the text. */
  lemma CoreChars(text: string, core: seq<string>, c: char)
    requires core == Core(Kept(Lines(text))) && c in Join(core) && c != '\n'
    ensures c in text
  {
    JoinChars(core, c);
    var i :| 0 <= i < |core| && c in core[i];
    var kept := Kept(Lines(text));
    assert kept[i] == core[i];
    KeptChars(Lines(text), i, c);
    var j :| 0 <= j < |Lines(text)| && c in Lines(text)[j];
    LinesChars(text, j, c);
  }

  /** The lines that the first pass settles on. */
  function CoreOf(text: string): seq<string> {
    Core(Kept(Lines(Norm(Clean(text)))))
  }

  lemma CoreIsPlain(text: string)
    ensures forall c :: c in Join(CoreOf(text)) ==> c == '\n' || (!IsControl(c) && c != '\r')
  {
    CleanedIsPlain(text);
    forall c | c in Join(CoreOf(text)) && c != '\n' ensures !IsControl(c) && c != '\r' {
      CoreChars(Norm(Clean(text)), CoreOf(text), c);
    }
  }

  /** What the first pass returns. */
  lemma FirstPass(text: string)
    ensures var core := CoreOf(text); Tidy(core) && (core != [] ==> core[|core| - 1] != "")
    ensures NormalizeStructured(text) == Join(CoreOf(text)) + "\n" && Trimmed(Join(CoreOf(text)))
  {
    var lines := Lines(Norm(Clean(text)));
    KeptIsTidy(lines);
    SubstitutionIsNoOp(text);
    StripOfJoin(Kept(lines));
    CoreIsTidy(Kept(lines));
  }

  /** A second pass changes nothing. */
  lemma StructuredIsIdempotent(text: string)
    ensures NormalizeStructured(NormalizeStructured(text)) == NormalizeStructured(text)
  {
    var core := CoreOf(text);
    FirstPass(text);
    CoreIsPlain(text);
    PlainStaysAsItIs(Join(core));
    SecondPass(core);
  }

  lemma PlainStaysAsItIs(s: string)
    requires forall c :: c in s ==> c == '\n' || (!IsControl(c) && c != '\r')
    ensures Norm(Clean(s + "\n")) == s + "\n"
  {
    var r := s + "\n";
    forall i | 0 <= i < |r| ensures !IsControl(r[i]) && r[i] != '\r' {
      if i < |s| { assert r[i] in s; }
    }
    CleanKeepsClean(r);
    NormWithoutCr(r);
  }

  lemma BlankLinesVanish()
    ensures Kept(Lines("\n")) == []
  {
    assert "\n"[1..] == "" && Lines("\n") == ["", ""];
    StripTrimmed("");
    assert ["", ""][..1] == [""] && [""][..0] == [];
    assert Kept([""]) == [];
  }

  lemma TidyWithBreak(core: seq<string>)
    requires Tidy(core) && core != [] && core[|core| - 1] != ""
    ensures var r := Join(core) + "\n"; Lines(r) == core + [""] && Tidy(core + [""]) && Join(core + [""]) == r
  {
    LinesWithBreak(core);
    BlankKeepsTidy(core);
    JoinSnocBlank(core);
  }

  lemma LinesWithBreak(core: seq<string>)
    requires core != [] && Avoid(core, '\n')
    ensures Lines(Join(core) + "\n") == core + [""]
  {
    LinesOfJoin(core);
    LinesAppend(Join(core), "");
    assert Join(core) + "\n" + "" == Join(core) + "\n";
  }

  lemma BlankKeepsTidy(core: seq<string>)
    requires Tidy(core) && core != [] && core[|core| - 1] != ""
    ensures Tidy(core + [""])
  {
  }

  lemma SecondPass(core: seq<string>)
    requires Tidy(core) && (core != [] ==> core[|core| - 1] != "") && Trimmed(Join(core))
    ensures Strip(CollapseBreaks(Join(Kept(Lines(Join(core) + "\n"))))) == Join(core)
  {
    StripTrimmed(Join(core));
    if core == [] {
      assert Join(core) + "\n" == "\n";
      BlankLinesVanish();
    } else {
      TidyWithBreak(core);
      KeptKeepsTidy(core + [""]);
      JoinHasNoTriple(core + [""]);
      CollapseIsNoOp(Join(core + [""]));
    }
  }

  // ----- what the structured normaliser keeps -----

  /** A line that says something, and whether a blank line stands between it and the one before. */
  datatype Item = Item(afterGap: bool, text: string)

  /** What lines say, and whether a blank line has come since the last that says something. */
  datatype Outline = Outline(items: seq<Item>, gap: bool)

  function OutlineOf(lines: seq<string>): Outline {
    if lines == [] then Outline([], false)
    else
      var o, text := OutlineOf(lines[..|lines| - 1]), Strip(lines[|lines| - 1]);
      if text == "" then Outline(o.items, o.items != []) else Outline(o.items + [Item(o.gap, text)], false)
  }

  lemma OutlineNext(lines: seq<string>, line: string)
    ensures var o := OutlineOf(lines);
      OutlineOf(lines + [line]) ==
        if Strip(line) == "" then Outline(o.items, o.items != []) else Outline(o.items + [Item(o.gap, Strip(line))], false)
  {
    assert (lines + [line])[..|lines|] == lines;
  }

  /** Keeping lines changes neither what they say nor where the gaps are. */
  lemma {:induction false} KeptOutline(lines: seq<string>)
    ensures OutlineOf(Kept(lines)) == OutlineOf(lines)
    ensures Kept(lines) == [] <==> OutlineOf(lines).items == []
    ensures OutlineOf(lines).gap <==> Kept(lines) != [] && Strip(Kept(lines)[|Kept(lines)| - 1]) == ""
  {
    if lines != [] {
      var before, line := lines[..|lines| - 1], lines[|lines| - 1];
      KeptOutline(before);
      assert lines == before + [line];
      StripIsTrimmed(line);
      StripTrimmed(Strip(line));
      StripTrimmed("");
      OutlineNext(Kept(before), Strip(line));
      OutlineNext(Kept(before), "");
    }
  }

  lemma CoreOutline(lines: seq<string>)
    ensures OutlineOf(Core(lines) + [""]).items == OutlineOf(lines).items
  {
    StripTrimmed("");
    OutlineNext(Core(lines), "");
    if Core(lines) != lines {
      assert lines == Core(lines) + [""];
    }
  }

  /** The structured text says, line by line, what the cleaned text says, with the same gaps. */
  lemma StructuredKeepsOutline(text: string)
    ensures OutlineOf(Lines(NormalizeStructured(text))).items == OutlineOf(Lines(Norm(Clean(text)))).items
  {
    var kept, core := Kept(Lines(Norm(Clean(text)))), CoreOf(text);
    FirstPass(text);
    KeptOutline(Lines(Norm(Clean(text))));
    CoreOutline(kept);
    if core == [] {
      assert Join(core) + "\n" == "\n" && "\n"[1..] == "" && Lines("\n") == ["", ""];
      StripTrimmed("");
      OutlineNext([""], "");
      OutlineNext([], "");
      assert ["", ""] == [""] + [""] && [""] == [] + [""];
    } else {
      TidyWithBreak(core);
    }
  }
}
