/** Packaging of the evidence files of a run: archive names, what is packed and what is missing. */
module Evidence {
  import opened Basics

  // ----- names -----

  /** The last position of `c` in `s`, or -1. */
  function LastIndex(s: string, c: char): (i: int)
    ensures -1 <= i < |s|
    ensures i >= 0 ==> s[i] == c
    ensures forall j :: i < j < |s| ==> s[j] != c
  {
    if s == "" then -1
    else if s[|s| - 1] == c then |s| - 1
    else LastIndex(s[..|s| - 1], c)
  }

  function ForwardSlashes(s: string): (r: string)
    ensures |r| == |s|
  {
    seq(|s|, i requires 0 <= i < |s| => if s[i] == '\\' then '/' else s[i])
  }

  /** Where the suffix of the file name starts: at its last dot, unless that is its first or last character. */
  function SuffixStart(arcname: string): (i: nat)
    ensures i <= |arcname|
  {
    var start := LastIndex(arcname, '/') + 1;
    var dot := LastIndex(arcname[start..], '.');
    if 0 < dot < |arcname| - start - 1 then start + dot else |arcname|
  }

  /** The same path with a number at the end of the stem. */
  function Numbered(arcname: string, index: nat): string {
    var i := SuffixStart(arcname);
    ForwardSlashes(arcname[..i] + "_" + Decimal(index) + arcname[i..])
  }

  /** The candidates for one name are all different. */
  lemma NumberingIsInjective(arcname: string, i: nat, j: nat)
    requires Numbered(arcname, i) == Numbered(arcname, j)
    ensures i == j
  {
    var at := SuffixStart(arcname);
    var m, n := Decimal(i), Decimal(j);
    assert |Numbered(arcname, i)| == |arcname| + 1 + |m| && |Numbered(arcname, j)| == |arcname| + 1 + |n|;
    forall k | 0 <= k < |m| ensures m[k] == n[k] {
      var s, t := arcname[..at] + "_" + m + arcname[at..], arcname[..at] + "_" + n + arcname[at..];
      assert s[at + 1 + k] == m[k] && t[at + 1 + k] == n[k];
      assert Numbered(arcname, i)[at + 1 + k] == m[k] && Numbered(arcname, j)[at + 1 + k] == n[k];
    }
    assert m == n;
    ValueOfDecimal(i);
    ValueOfDecimal(j);
  }

  lemma NumbersDiffer(arcname: string, i: nat, j: nat)
    requires i != j
    ensures Numbered(arcname, i) != Numbered(arcname, j)
  {
    if Numbered(arcname, i) == Numbered(arcname, j) {
      NumberingIsInjective(arcname, i, j);
    }
  }

  /** Pigeonhole: that many different candidates cannot all be among fewer names. */
  lemma TakenCandidatesFit(arcname: string, next: nat, seen: set<string>)
    requires 2 <= next
    requires forall k :: 2 <= k < next ==> Numbered(arcname, k) in seen
    ensures next - 2 <= |seen|
  {
    var s := seq(next - 2, k requires 0 <= k < next - 2 => Numbered(arcname, k + 2));
    forall i, j | 0 <= i < j < |s| ensures s[i] != s[j] {
      NumbersDiffer(arcname, i + 2, j + 2);
    }
    DistinctFits(s, seen);
  }

  /** The name itself when it is free, or else its first free candidate from number two on. */
  ghost predicate IsUnique(arcname: string, seen: set<string>, name: string) {
    name !in seen &&
    if arcname !in seen then name == arcname
    else exists i: nat :: 2 <= i && name == Numbered(arcname, i) && forall k :: 2 <= k < i ==> Numbered(arcname, k) in seen
  }

  lemma UniqueNameIsDetermined(arcname: string, seen: set<string>, a: string, b: string)
    requires IsUnique(arcname, seen, a) && IsUnique(arcname, seen, b)
    ensures a == b
  {
    if arcname in seen {
      var i: nat :| 2 <= i && a == Numbered(arcname, i) && forall k :: 2 <= k < i ==> Numbered(arcname, k) in seen;
      var j: nat :| 2 <= j && b == Numbered(arcname, j) && forall k :: 2 <= k < j ==> Numbered(arcname, k) in seen;
      assert i <= j && j <= i;
    }
  }

  method UniqueArcname(arcname: string, seen: set<string>) returns (candidate: string, seen': set<string>)
    ensures IsUnique(arcname, seen, candidate)
    ensures seen' == seen + {candidate}
  {
    candidate := arcname;
    if candidate !in seen {
      seen' := seen + {candidate};
      return;
    }
    var index := 2;
    candidate := Numbered(arcname, index);
    TakenCandidatesFit(arcname, index, seen);
    while candidate in seen
      invariant 2 <= index <= |seen| + 2 && candidate == Numbered(arcname, index)
      invariant forall k :: 2 <= k < index ==> Numbered(arcname, k) in seen
      decreases |seen| + 2 - index
    {
      index := index + 1;
      TakenCandidatesFit(arcname, index, seen);
      candidate := Numbered(arcname, index);
    }
    seen' := seen + {candidate};
  }

  // ----- packaging -----

  /** A listed file; `arcname` is its wanted name in the archive. */
  datatype File = File(path: string, suffix: string, arcname: string, present: bool)

  datatype Row = Row(taskName: string, deviceGroup: string, deviceName: string, taskType: string,
                     screenshots: seq<File>, texts: seq<File>)

  datatype Missing = Missing(taskName: string, deviceGroup: string, deviceName: string, path: string)

  datatype Entry = Entry(path: string, name: string)

  const IMAGE_EXTENSIONS := {".png", ".jpg", ".jpeg"}
  const TEXT_EXTENSIONS := {".txt"}

  function Detail(row: Row, file: File): Missing {
    Missing(row.taskName, row.deviceGroup, row.deviceName, file.path)
  }

  predicate HasTexts(row: Row) {
    Contains(Lower(row.taskType), "ssh") || Contains(Lower(row.taskType), "telnet")
  }

  /** A file together with the row that lists it. */
  datatype Listed = Listed(row: Row, file: File)

  ghost function EligibleOf(row: Row, files: seq<File>, extensions: set<string>): (r: seq<Listed>) {
    if files == [] then []
    else
      var file := files[|files| - 1];
      EligibleOf(row, files[..|files| - 1], extensions) + if Lower(file.suffix) in extensions then [Listed(row, file)] else []
  }

  ghost function EligibleOfRow(row: Row): seq<Listed> {
    EligibleOf(row, row.screenshots, IMAGE_EXTENSIONS) + if HasTexts(row) then EligibleOf(row, row.texts, TEXT_EXTENSIONS) else []
  }

  /** All files that belong into the archive, in packing order: images of every row, texts of terminal rows. */
  ghost function Eligible(rows: seq<Row>): seq<Listed> {
    if rows == [] then [] else Eligible(rows[..|rows| - 1]) + EligibleOfRow(rows[|rows| - 1])
  }

  ghost function Names(entries: seq<Entry>): set<string> {
    set e | e in entries :: e.name
  }

  ghost function Present(all: seq<Listed>): seq<File> {
    if all == [] then []
    else
      var file := all[|all| - 1].file;
      Present(all[..|all| - 1]) + if file.present then [file] else []
  }

  ghost function Absent(all: seq<Listed>): seq<Missing> {
    if all == [] then []
    else
      var l := all[|all| - 1];
      Absent(all[..|all| - 1]) + if l.file.present then [] else [Detail(l.row, l.file)]
  }

  ghost predicate Packs(files: seq<File>, entries: seq<Entry>) {
    |entries| == |files| && forall i :: 0 <= i < |files| ==> PacksAt(files, entries, i)
  }

  ghost predicate PacksAt(files: seq<File>, entries: seq<Entry>, i: nat)
    requires i < |entries| == |files|
  {
    entries[i].path == files[i].path && IsUnique(files[i].arcname, Names(entries[..i]), entries[i].name)
  }

  /** What has been packed and what is missing after the files of `all`. */
  ghost predicate Accounts(all: seq<Listed>, entries: seq<Entry>, missing: seq<Missing>) {
    Packs(Present(all), entries) && missing == Absent(all)
  }

  ghost predicate DistinctNames(entries: seq<Entry>) {
    forall i, j :: 0 <= i < j < |entries| ==> entries[i].name != entries[j].name
  }

  lemma {:induction false} PresentOrAbsent(all: seq<Listed>)
    ensures |Present(all)| + |Absent(all)| == |all|
  {
    if all != [] { PresentOrAbsent(all[..|all| - 1]); }
  }

  /** Every eligible file is packed once or reported missing once, and no two archive names are equal. */
  lemma PackagingConserves(all: seq<Listed>, entries: seq<Entry>, missing: seq<Missing>)
    requires Accounts(all, entries, missing)
    ensures |entries| + |missing| == |all|
    ensures DistinctNames(entries)
  {
    PresentOrAbsent(all);
    forall i, j | 0 <= i < j < |entries| ensures entries[i].name != entries[j].name {
      assert PacksAt(Present(all), entries, j);
      assert entries[..j][i] in entries[..j];
    }
  }

  /** The archive is determined by the rows. */
  lemma {:induction false} PackingIsDetermined(files: seq<File>, a: seq<Entry>, b: seq<Entry>)
    requires Packs(files, a) && Packs(files, b)
    ensures a == b
  {
    if files != [] {
      var n := |files| - 1;
      PacksPrefix(files, a, n);
      PacksPrefix(files, b, n);
      PackingIsDetermined(files[..n], a[..n], b[..n]);
      assert PacksAt(files, a, n) && PacksAt(files, b, n);
      UniqueNameIsDetermined(files[n].arcname, Names(a[..n]), a[n].name, b[n].name);
      assert a == a[..n] + [a[n]] && b == b[..n] + [b[n]];
    }
  }

  lemma PacksPrefix(files: seq<File>, entries: seq<Entry>, n: nat)
    requires Packs(files, entries) && n <= |files|
    ensures Packs(files[..n], entries[..n])
  {
    forall i | 0 <= i < n ensures PacksAt(files[..n], entries[..n], i) {
      assert PacksAt(files, entries, i);
      assert entries[..n][..i] == entries[..i];
    }
  }

  lemma PacksNext(files: seq<File>, entries: seq<Entry>, file: File, name: string)
    requires Packs(files, entries) && IsUnique(file.arcname, Names(entries), name)
    ensures Packs(files + [file], entries + [Entry(file.path, name)])
    ensures Names(entries + [Entry(file.path, name)]) == Names(entries) + {name}
  {
    var more, e := files + [file], entries + [Entry(file.path, name)];
    forall i | 0 <= i < |more| ensures PacksAt(more, e, i) {
      if i < |files| {
        assert PacksAt(files, entries, i);
        assert e[..i] == entries[..i];
      } else {
        assert e[..i] == entries;
      }
    }
    assert e[|entries|] in e && forall x :: x in e <==> x in entries || x == Entry(file.path, name);
  }

  lemma ListedNext(all: seq<Listed>, l: Listed)
    ensures Present(all + [l]) == if l.file.present then Present(all) + [l.file] else Present(all)
    ensures Absent(all + [l]) == if l.file.present then Absent(all) else Absent(all) + [Detail(l.row, l.file)]
  {
    assert (all + [l])[..|all|] == all;
  }

  lemma EligibleNext(row: Row, files: seq<File>, extensions: set<string>, k: nat)
    requires k < |files|
    ensures EligibleOf(row, files[..k + 1], extensions) ==
      EligibleOf(row, files[..k], extensions) + if Lower(files[k].suffix) in extensions then [Listed(row, files[k])] else []
  {
    assert files[..k + 1][..k] == files[..k];
  }

  /** One eligible file goes into the archive or is reported missing. */
  method PackFile(row: Row, file: File, ghost all: seq<Listed>, entries: seq<Entry>, missing: seq<Missing>, seen: set<string>)
    returns (entries': seq<Entry>, missing': seq<Missing>, seen': set<string>)
    requires Accounts(all, entries, missing) && seen == Names(entries)
    ensures Accounts(all + [Listed(row, file)], entries', missing') && seen' == Names(entries')
  {
    entries', missing', seen' := entries, missing, seen;
    ListedNext(all, Listed(row, file));
    if !file.present {
      missing' := missing' + [Detail(row, file)];
      return;
    }
    var arcname;
    arcname, seen' := UniqueArcname(file.arcname, seen');
    PacksNext(Present(all), entries', file, arcname);
    entries' := entries' + [Entry(file.path, arcname)];
  }

  /** One of the two inner loops. */
  method PackFiles(row: Row, files: seq<File>, extensions: set<string>, ghost done: seq<Listed>,
                   entries: seq<Entry>, missing: seq<Missing>, seen: set<string>)
    returns (entries': seq<Entry>, missing': seq<Missing>, seen': set<string>)
    requires Accounts(done, entries, missing) && seen == Names(entries)
    ensures Accounts(done + EligibleOf(row, files, extensions), entries', missing') && seen' == Names(entries')
  {
    entries', missing', seen' := entries, missing, seen;
    ghost var all := done;
    for k := 0 to |files|
      invariant all == done + EligibleOf(row, files[..k], extensions)
      invariant Accounts(all, entries', missing') && seen' == Names(entries')
    {
      EligibleNext(row, files, extensions, k);
      if Lower(files[k].suffix) !in extensions {
        continue;
      }
      entries', missing', seen' := PackFile(row, files[k], all, entries', missing', seen');
      all := all + [Listed(row, files[k])];
    }
    assert files[..|files|] == files;
  }

  lemma EligibleRowNext(rows: seq<Row>, i: nat)
    requires i < |rows|
    ensures Eligible(rows[..i + 1]) == Eligible(rows[..i]) + EligibleOfRow(rows[i])
    ensures Eligible(rows[..i]) + EligibleOfRow(rows[i]) ==
      Eligible(rows[..i]) + EligibleOf(rows[i], rows[i].screenshots, IMAGE_EXTENSIONS)
      + if HasTexts(rows[i]) then EligibleOf(rows[i], rows[i].texts, TEXT_EXTENSIONS) else []
  {
    assert rows[..i + 1][..i] == rows[..i];
  }

  method PackageEvidence(rows: seq<Row>) returns (entries: seq<Entry>, missing: seq<Missing>)
    ensures Accounts(Eligible(rows), entries, missing)
    ensures |entries| + |missing| == |Eligible(rows)| && DistinctNames(entries)
  {
    entries, missing := [], [];
    var seen: set<string> := {};
    for i := 0 to |rows|
      invariant Accounts(Eligible(rows[..i]), entries, missing) && seen == Names(entries)
    {
      var row := rows[i];
      ghost var done := Eligible(rows[..i]);
      ghost var images := EligibleOf(row, row.screenshots, IMAGE_EXTENSIONS);
      EligibleRowNext(rows, i);
      entries, missing, seen := PackFiles(row, row.screenshots, IMAGE_EXTENSIONS, done, entries, missing, seen);
      if !HasTexts(row) {
        assert done + images + [] == done + images;
        continue;
      }
      entries, missing, seen := PackFiles(row, row.texts, TEXT_EXTENSIONS, done + images, entries, missing, seen);
    }
    assert rows[..|rows|] == rows;
    PackagingConserves(Eligible(rows), entries, missing);
  }

  /** Which files are meant, and what is reported of a missing one. */
  lemma ExtensionsAre(row: Row, file: File, suffix: string)
    ensures suffix in IMAGE_EXTENSIONS <==> suffix == ".png" || suffix == ".jpg" || suffix == ".jpeg"
    ensures suffix in TEXT_EXTENSIONS <==> suffix == ".txt"
    ensures HasTexts(row) <==> Contains(Lower(row.taskType), "ssh") || Contains(Lower(row.taskType), "telnet")
    ensures Detail(row, file) == Missing(row.taskName, row.deviceGroup, row.deviceName, file.path)
  {
  }

  /** Where the suffix of such a name starts. */
  lemma SuffixStartIs(folder: string, stem: string, suffix: string)
    requires stem != "" && '/' !in stem
    requires |suffix| >= 2 && suffix[0] == '.' && forall i :: 1 <= i < |suffix| ==> suffix[i] != '.' && suffix[i] != '/'
    ensures SuffixStart(folder + "/" + stem + suffix) == |folder| + 1 + |stem|
  {
    var name := folder + "/" + stem + suffix;
    var start, dot := |folder| + 1, |folder| + 1 + |stem|;
    assert name[|folder|] == '/' && name[dot] == '.' && name[start..] == stem + suffix;
    forall k | |folder| < k < |name| ensures name[k] != '/' {
      if k < dot { assert name[k] == stem[k - start]; } else { assert name[k] == suffix[k - dot]; }
    }
    LastIs(name, '/', |folder|);
    forall k | |stem| < k < |name[start..]| ensures name[start..][k] != '.' {
      assert name[start..][k] == suffix[k - |stem|];
    }
    LastIs(name[start..], '.', |stem|);
  }

  /** The number goes between stem and suffix of the file name. */
  lemma NumberedIs(folder: string, stem: string, suffix: string, index: nat)
    requires stem != "" && '/' !in stem && '\\' !in folder + "/" + stem && '\\' !in suffix
    requires |suffix| >= 2 && suffix[0] == '.' && forall i :: 1 <= i < |suffix| ==> suffix[i] != '.' && suffix[i] != '/'
    ensures Numbered(folder + "/" + stem + suffix, index) == folder + "/" + stem + "_" + Decimal(index) + suffix
  {
    var front, name := folder + "/" + stem, folder + "/" + stem + suffix;
    SuffixStartIs(folder, stem, suffix);
    assert name[..|front|] == front && name[|front|..] == suffix;
    StaysForward(front, "_" + Decimal(index), suffix);
    assert front + "_" + Decimal(index) + suffix == front + ("_" + Decimal(index)) + suffix;
  }

  lemma StaysForward(a: string, b: string, c: string)
    requires '\\' !in a && '\\' !in b && '\\' !in c
    ensures ForwardSlashes(a + b + c) == a + b + c
  {
    var s := a + b + c;
    forall k | 0 <= k < |s| ensures s[k] != '\\' {
      assert s[k] in a || s[k] in b || s[k] in c;
    }
  }

  lemma LastIs(s: string, c: char, i: nat)
    requires i < |s| && s[i] == c && forall j :: i < j < |s| ==> s[j] != c
    ensures LastIndex(s, c) == i
  {
  }

  // ----- one image per task -----

  predicate HasExistingImage(row: Row) {
    exists file :: file in row.screenshots && file.present && Lower(file.suffix) in IMAGE_EXTENSIONS
  }

  /** An image counts when its file is there. */
  lemma ExistingImageIff(row: Row)
    ensures HasExistingImage(row) <==>
      exists i :: 0 <= i < |row.screenshots| && row.screenshots[i].present
        && (Lower(row.screenshots[i].suffix) == ".png" || Lower(row.screenshots[i].suffix) == ".jpg"
            || Lower(row.screenshots[i].suffix) == ".jpeg")
  {
    if HasExistingImage(row) {
      var file :| file in row.screenshots && file.present && Lower(file.suffix) in IMAGE_EXTENSIONS;
      var i :| 0 <= i < |row.screenshots| && row.screenshots[i] == file;
    }
  }

  /** The task names in the order of their first rows. */
  function TaskNames(rows: seq<Row>): seq<string> {
    if rows == [] then []
    else
      var before, name := TaskNames(rows[..|rows| - 1]), rows[|rows| - 1].taskName;
      if name in before then before else before + [name]
  }

  /** Every task has one name there. */
  lemma {:induction false} TaskNamesAre(rows: seq<Row>)
    ensures Distinct(TaskNames(rows))
    ensures forall name :: name in TaskNames(rows) <==> exists i :: 0 <= i < |rows| && rows[i].taskName == name
  {
    if rows != [] {
      var n := |rows| - 1;
      TaskNamesAre(rows[..n]);
      assert forall i :: 0 <= i < n ==> rows[..n][i] == rows[i];
    }
  }

  /** Among the first `n` rows, row `i` is the first one of its task with an existing image or, if there is none, the task's first row. */
  ghost predicate Represents(rows: seq<Row>, n: nat, i: nat)
    requires n <= |rows|
  {
    i < n &&
    if HasExistingImage(rows[i]) then
      forall j :: 0 <= j < i && rows[j].taskName == rows[i].taskName ==> !HasExistingImage(rows[j])
    else
      forall j :: 0 <= j < n && rows[j].taskName == rows[i].taskName ==> i <= j && !HasExistingImage(rows[j])
  }

  /** There is only one such row, so the selection is determined. */
  lemma RepresentativeIsUnique(rows: seq<Row>, i: nat, j: nat)
    requires Represents(rows, |rows|, i) && Represents(rows, |rows|, j) && rows[i].taskName == rows[j].taskName
    ensures i == j
  {
  }

  ghost predicate Stands(rows: seq<Row>, n: nat, row: Row)
    requires n <= |rows|
  {
    exists i: nat :: i < n && rows[i] == row && Represents(rows, n, i)
  }

  lemma StandsNext(rows: seq<Row>, n: nat, row: Row)
    requires n < |rows| && Stands(rows, n, row)
    ensures row.taskName != rows[n].taskName || HasExistingImage(row) || !HasExistingImage(rows[n]) ==> Stands(rows, n + 1, row)
    ensures row.taskName == rows[n].taskName && !HasExistingImage(row) && HasExistingImage(rows[n]) ==> Stands(rows, n + 1, rows[n])
  {
    var i: nat :| i < n && rows[i] == row && Represents(rows, n, i);
    if row.taskName == rows[n].taskName && !HasExistingImage(row) && HasExistingImage(rows[n]) {
      assert Represents(rows, n + 1, n);
    } else {
      assert Represents(rows, n + 1, i);
    }
  }

  lemma FirstStands(rows: seq<Row>, n: nat)
    requires n < |rows| && rows[n].taskName !in TaskNames(rows[..n])
    ensures Stands(rows, n + 1, rows[n])
  {
    TaskNamesAre(rows[..n]);
    assert forall j :: 0 <= j < n ==> rows[..n][j] == rows[j];
    assert Represents(rows, n + 1, n);
  }

  ghost predicate Selects(rows: seq<Row>, n: nat, selected: map<string, Row>)
    requires n <= |rows|
  {
    forall name :: name in selected ==> selected[name].taskName == name && Stands(rows, n, selected[name])
  }

  method OneImagePerTask(rows: seq<Row>) returns (result: seq<Row>)
    ensures |result| == |TaskNames(rows)|
    ensures forall k :: 0 <= k < |result| ==> result[k].taskName == TaskNames(rows)[k] && Stands(rows, |rows|, result[k])
  {
    var order: seq<string>, selectedByTask: map<string, Row> := [], map[];
    for k := 0 to |rows|
      invariant order == TaskNames(rows[..k])
      invariant forall name :: name in selectedByTask <==> name in order
      invariant Selects(rows, k, selectedByTask)
    {
      var row := rows[k];
      assert rows[..k + 1][..k] == rows[..k];
      forall name | name in selectedByTask { StandsNext(rows, k, selectedByTask[name]); }
      if row.taskName !in selectedByTask {
        FirstStands(rows, k);
        order := order + [row.taskName];
        selectedByTask := selectedByTask[row.taskName := row];
        continue;
      }
      var current := selectedByTask[row.taskName];
      if !HasExistingImage(current) && HasExistingImage(row) {
        selectedByTask := selectedByTask[row.taskName := row];
      }
    }
    assert rows[..|rows|] == rows;
    result := seq(|order|, k requires 0 <= k < |order| => selectedByTask[order[k]]);
  }
}
