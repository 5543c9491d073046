/** Lines and line ends of terminal text. */
module Text {
  import opened Basics

  /** Every "\r\n" becomes "\n". */
  function CrLfToLf(s: string): string {
    if s == "" then ""
    else if |s| >= 2 && s[0] == '\r' && s[1] == '\n' then "\n" + CrLfToLf(s[2..])
    else [s[0]] + CrLfToLf(s[1..])
  }

  /** Every "\r" becomes "\n". */
  function CrToLf(s: string): (r: string)
    ensures '\r' !in r
  {
    if s == "" then "" else [if s[0] == '\r' then '\n' else s[0]] + CrToLf(s[1..])
  }

  /** Both replacements, one after the other, as the program does them. */
  function Norm(s: string): string {
    CrToLf(CrLfToLf(s))
  }

  /** How much of a text its first normalised character stands for. */
  function Width(s: string): (k: nat)
    requires s != ""
    ensures 1 <= k <= |s|
  {
    if |s| >= 2 && s[0] == '\r' && s[1] == '\n' then 2 else 1
  }

  /** In one pass. */
  lemma NormStep(s: string)
    requires s != ""
    ensures Norm(s) == [if s[0] == '\r' then '\n' else s[0]] + Norm(s[Width(s)..])
  {
    assert CrLfToLf(s)[1..] == CrLfToLf(s[Width(s)..]);
  }

  lemma {:induction false} NormWithoutCr(s: string)
    requires '\r' !in s
    ensures Norm(s) == s
  {
    if s != "" {
      NormStep(s);
      NormWithoutCr(s[1..]);
    }
  }

  lemma NormHasNoCr(s: string)
    ensures '\r' !in Norm(s)
  {
  }

  lemma NormConcatStep(s: string, t: string)
    requires s != "" && t != "" && (s[|s| - 1] != '\r' || t[0] != '\n')
    ensures Norm(s + t) == [if s[0] == '\r' then '\n' else s[0]] + Norm(s[Width(s)..] + t)
  {
    NormStep(s + t);
    assert Width(s + t) == Width(s) && (s + t)[Width(s)..] == s[Width(s)..] + t;
  }

  /** Two parts normalise separately unless the cut runs through a "\r\n". */
  lemma {:induction false} NormConcat(s: string, t: string)
    requires s == "" || t == "" || s[|s| - 1] != '\r' || t[0] != '\n'
    ensures Norm(s + t) == Norm(s) + Norm(t)
  {
    if s == "" {
      assert s + t == t;
    } else if t == "" {
      assert s + t == s;
    } else {
      NormConcat(s[Width(s)..], t);
      NormStep(s);
      NormConcatStep(s, t);
    }
  }

  /** Normalising what has arrived so far gives a prefix of the normalised whole, wherever the cut is. */
  lemma {:induction false} NormPrefix(p: string, s: string)
    requires p <= s
    ensures Norm(p) <= Norm(s)
  {
    if p != "" {
      NormStep(p);
      NormStep(s);
      if p[0] == '\r' && |p| == 1 {
      } else if p[0] == '\r' && p[1] == '\n' {
        NormPrefix(p[2..], s[2..]);
      } else {
        NormPrefix(p[1..], s[1..]);
      }
    }
  }

  // ----- lines -----

  ghost predicate Avoid(lines: seq<string>, c: char) {
    forall i :: 0 <= i < |lines| ==> c !in lines[i]
  }

  function Lines(s: string): (lines: seq<string>)
    ensures |lines| >= 1
    ensures Avoid(lines, '\n')
  {
    if s == "" then [""]
    else
      var rest := Lines(s[1..]);
      if s[0] == '\n' then [""] + rest else [[s[0]] + rest[0]] + rest[1..]
  }

  function Join(lines: seq<string>): string {
    if lines == [] then ""
    else if |lines| == 1 then lines[0]
    else lines[0] + "\n" + Join(lines[1..])
  }

  lemma {:induction false} LinesOfLine(line: string)
    requires '\n' !in line
    ensures Lines(line) == [line]
  {
    if line != "" {
      LinesOfLine(line[1..]);
      assert line == [line[0]] + line[1..];
    }
  }

  lemma {:induction false} LinesOfTwo(line: string, rest: string)
    requires '\n' !in line
    ensures Lines(line + "\n" + rest) == [line] + Lines(rest)
  {
    var s := line + "\n" + rest;
    if line == "" {
      assert s[1..] == rest;
    } else {
      assert s[1..] == line[1..] + "\n" + rest;
      LinesOfTwo(line[1..], rest);
      assert line == [line[0]] + line[1..];
    }
  }

  lemma {:induction false} LinesOfJoin(lines: seq<string>)
    requires lines != [] && Avoid(lines, '\n')
    ensures Lines(Join(lines)) == lines
  {
    if |lines| == 1 {
      LinesOfLine(lines[0]);
    } else {
      LinesOfJoin(lines[1..]);
      LinesOfTwo(lines[0], Join(lines[1..]));
    }
  }

  /** The lines `ls` are the first lines of `ms`, the last of them perhaps cut short. */
  ghost predicate CutOf(ls: seq<string>, ms: seq<string>) {
    1 <= |ls| <= |ms| && ls[|ls| - 1] <= ms[|ls| - 1] && forall i :: 0 <= i < |ls| - 1 ==> ls[i] == ms[i]
  }

  lemma CutLonger(c: char, ls: seq<string>, ms: seq<string>)
    requires CutOf(ls, ms)
    ensures CutOf([[c] + ls[0]] + ls[1..], [[c] + ms[0]] + ms[1..])
    ensures CutOf([""] + ls, [""] + ms)
  {
  }

  /** A prefix has the lines of the whole, the last of them perhaps cut short. */
  lemma {:induction false} LinesOfPrefix(p: string, s: string)
    requires p <= s
    ensures CutOf(Lines(p), Lines(s))
  {
    if p != "" {
      LinesOfPrefix(p[1..], s[1..]);
      CutLonger(s[0], Lines(p[1..]), Lines(s[1..]));
    }
  }

  /** Text before a line end keeps its lines. */
  lemma {:induction false} LinesAppend(s: string, rest: string)
    ensures Lines(s + "\n" + rest) == Lines(s) + Lines(rest)
  {
    var t := s + "\n" + rest;
    if s == "" {
      assert t[1..] == rest;
    } else {
      assert t[1..] == s[1..] + "\n" + rest;
      LinesAppend(s[1..], rest);
    }
  }

  lemma {:induction false} LinesKeepOut(s: string, c: char)
    requires c !in s
    ensures Avoid(Lines(s), c)
  {
    if s != "" {
      LinesKeepOut(s[1..], c);
    }
  }
}
