/**
 The Excel configuration store: content files under by_hash, the record latest.json, and a cached copy of
 latest.json. An activation is a transaction over the three in which any write may fail.
 */
module ConfigStore {
  import opened Basics

  newtype byte = x: int | 0 <= x < 256
  type Bytes = seq<byte>

  const MIN_SIZE := 100

  datatype Counts = Counts(devices: nat, enabledDevices: nat, tasks: nat, enabledTasks: nat)

  datatype Source = ServerUpload | LocalPath | LegacyMigration

  datatype Meta = Meta(hash: string, storedPath: string, filename: string, source: Source, counts: Counts)

  /** latest.json: missing, unreadable as a record, or a record that names a content file. */
  datatype Latest = Absent | Corrupt | Named(meta: Meta)

  datatype Disk = Disk(byHash: map<string, Bytes>, latest: Latest)

  datatype State = State(disk: Disk, cache: Option<Meta>)

  const EMPTY := State(Disk(map[], Absent), None)

  datatype Code =
    | INVALID_EXCEL_FILE | EMPTY_EXCEL_FILE | EXCEL_PATH_NOT_FOUND | EXCEL_PATH_NOT_ALLOWED
    | INVALID_EXCEL_CONFIG | FILE_WRITE_ERROR | LATEST_COMMIT_FAILED

  /** `Raised` is an exception that leaves the store unhandled. */
  datatype Response = Accepted(meta: Meta) | Rejected(code: Code) | Raised

  datatype Parse = Parsed(counts: Counts) | ParseFailed | ParseFileFailed

  /** Writing latest.json works, raises an operating-system error, or raises another one, such as an encoding error. */
  datatype LatestWrite = Written | SystemError | OtherError

  /** How the outside answers during one activation. */
  datatype Env = Env(parse: Parse, byHashWritten: bool, latestWrite: LatestWrite, unlinked: bool)

  /** The content, its digest, the second it arrives in, and how it is described. */
  datatype Request = Request(bytes: Bytes, hash: string, stamp: string, filename: string, source: Source)

  function StoredName(r: Request): string {
    r.stamp + "_" + (if |r.hash| >= 12 then r.hash[..12] else r.hash) + ".xlsx"
  }

  function MetaOf(r: Request, counts: Counts): Meta {
    Meta(r.hash, StoredName(r), r.filename, r.source, counts)
  }

  /** The transaction after the input checks. */
  function Committed(s: State, r: Request, e: Env): (State, Response) {
    var name := StoredName(r);
    if e.parse.ParseFileFailed? then (s, Raised)
    else if e.parse.ParseFailed? then (s, Rejected(INVALID_EXCEL_CONFIG))
    else if !e.byHashWritten then (s, Rejected(FILE_WRITE_ERROR))
    else
      var stored := s.disk.(byHash := s.disk.byHash[name := r.bytes]);
      match e.latestWrite
      case Written =>
        var meta := MetaOf(r, e.parse.counts);
        (State(stored.(latest := Named(meta)), Some(meta)), Accepted(meta))
      case SystemError =>
        var keep := name in s.disk.byHash || !e.unlinked;
        (s.(disk := if keep then stored else s.disk.(byHash := s.disk.byHash - {name})), Rejected(LATEST_COMMIT_FAILED))
      case OtherError => (s.(disk := stored), Raised)
  }

  /** The transaction got as far as replacing the content file. */
  predicate ReachesContent(e: Env) {
    e.parse.Parsed? && e.byHashWritten
  }

  /** Whatever an unaccepted activation did to the content files, it undid. */
  predicate Undone(s: State, r: Request, e: Env) {
    var name := StoredName(r);
    || !ReachesContent(e)
    || (name in s.disk.byHash && s.disk.byHash[name] == r.bytes)
    || (name !in s.disk.byHash && e.latestWrite.SystemError? && e.unlinked)
  }

  predicate BigEnough(r: Request) {
    |r.bytes| >= MIN_SIZE
  }

  function Uploaded(s: State, r: Request, e: Env): (State, Response) {
    if !EndsWith(Lower(r.filename), ".xlsx") then (s, Rejected(INVALID_EXCEL_FILE))
    else if !BigEnough(r) then (s, Rejected(EMPTY_EXCEL_FILE))
    else Committed(s, r, e)
  }

  /** The suffix of a path is not its whole name. */
  predicate HasSuffix(filename: string) {
    EndsWith(Lower(filename), ".xlsx") && |filename| > 5
  }

  /** What the file system says about a local path. */
  datatype LocalFile = LocalFile(present: bool, allowed: bool, readable: bool)

  function Imported(s: State, r: Request, e: Env, local: LocalFile): (State, Response) {
    if !local.present then (s, Rejected(EXCEL_PATH_NOT_FOUND))
    else if !HasSuffix(r.filename) then (s, Rejected(INVALID_EXCEL_FILE))
    else if !local.allowed then (s, Rejected(EXCEL_PATH_NOT_ALLOWED))
    else if !local.readable then (s, Raised)
    else if !BigEnough(r) then (s, Rejected(EMPTY_EXCEL_FILE))
    else Committed(s, r, e)
  }

  /**
   All or nothing: an activation that is not accepted leaves latest.json and cache alone, and it leaves the content
   files as they were exactly when it never replaced one, replaced one by itself, or rolled a new one back.
   */
  lemma RejectedChangesNothingIff(s: State, r: Request, e: Env)
    requires !Committed(s, r, e).1.Accepted?
    ensures var t := Committed(s, r, e).0;
      && t.disk.latest == s.disk.latest && t.cache == s.cache
      && (t == s <==> Undone(s, r, e))
  {
    var t := Committed(s, r, e).0;
    var name := StoredName(r);
    if ReachesContent(e) && !Undone(s, r, e) {
      assert name in t.disk.byHash && (name in s.disk.byHash ==> t.disk.byHash[name] != s.disk.byHash[name]);
    }
  }

  // ----- what each answer means -----

  /** A name that ends in ".xlsx", in any case. */
  predicate NamedXlsx(f: string) {
    var n := |f|;
    n >= 5 && f[n - 5] == '.' && f[n - 4] in {'x', 'X'} && f[n - 3] in {'l', 'L'} && f[n - 2] in {'s', 'S'} && f[n - 1] in {'x', 'X'}
  }

  lemma NamedXlsxIff(f: string)
    ensures EndsWith(Lower(f), ".xlsx") <==> NamedXlsx(f)
  {
    var n, low := |f|, Lower(f);
    if n >= 5 {
      var tail := low[n - 5..];
      assert tail[0] == low[n - 5] && tail[1] == low[n - 4] && tail[2] == low[n - 3] && tail[3] == low[n - 2] && tail[4] == low[n - 1];
      if NamedXlsx(f) {
        assert tail == ['.', 'x', 'l', 's', 'x'];
      }
    }
  }

  /** What the environment does when everything works. */
  predicate Works(e: Env) {
    e.parse.Parsed? && e.byHashWritten && e.latestWrite.Written?
  }

  /** After the input checks: the answer by the first thing that goes wrong, and what an accepted activation records. */
  lemma CommittedIs(s: State, r: Request, e: Env)
    requires |r.hash| == 64
    ensures var (t, response) := Committed(s, r, e);
      && (response.Accepted? <==> Works(e))
      && (response == Rejected(INVALID_EXCEL_CONFIG) <==> e.parse.ParseFailed?)
      && (response == Rejected(FILE_WRITE_ERROR) <==> e.parse.Parsed? && !e.byHashWritten)
      && (response == Rejected(LATEST_COMMIT_FAILED) <==> e.parse.Parsed? && e.byHashWritten && e.latestWrite.SystemError?)
      && (response.Raised? <==> e.parse.ParseFileFailed? || (e.parse.Parsed? && e.byHashWritten && e.latestWrite.OtherError?))
    ensures Works(e) ==>
      var name := r.stamp + "_" + r.hash[..12] + ".xlsx";
      var meta := Meta(r.hash, name, r.filename, r.source, e.parse.counts);
      Committed(s, r, e) == (State(Disk(s.disk.byHash[name := r.bytes], Named(meta)), Some(meta)), Accepted(meta))
    ensures !e.parse.Parsed? || !e.byHashWritten ==> Committed(s, r, e).0 == s
  {
  }

  /** An upload is accepted exactly when its name and size are right, it parses, and both writes work. */
  lemma UploadedIs(s: State, r: Request, e: Env)
    ensures var response := Uploaded(s, r, e).1;
      && (response.Accepted? <==> NamedXlsx(r.filename) && |r.bytes| >= 100 && Works(e))
      && (response == Rejected(INVALID_EXCEL_FILE) <==> !NamedXlsx(r.filename))
      && (response == Rejected(EMPTY_EXCEL_FILE) <==> NamedXlsx(r.filename) && |r.bytes| < 100)
    ensures NamedXlsx(r.filename) && |r.bytes| >= 100 ==> Uploaded(s, r, e) == Committed(s, r, e)
    ensures !(NamedXlsx(r.filename) && |r.bytes| >= 100) ==> Uploaded(s, r, e).0 == s
  {
    NamedXlsxIff(r.filename);
  }

  /** So is a local file, which must also be there, be allowed and be readable. */
  lemma ImportedIs(s: State, r: Request, e: Env, local: LocalFile)
    ensures var response, named := Imported(s, r, e, local).1, NamedXlsx(r.filename) && |r.filename| > 5;
      && (response.Accepted? <==>
            local.present && named && local.allowed && local.readable && |r.bytes| >= 100 && Works(e))
      && (response == Rejected(EXCEL_PATH_NOT_FOUND) <==> !local.present)
      && (response == Rejected(INVALID_EXCEL_FILE) <==> local.present && !named)
      && (response == Rejected(EXCEL_PATH_NOT_ALLOWED) <==> local.present && named && !local.allowed)
      && (response == Rejected(EMPTY_EXCEL_FILE) <==>
            local.present && named && local.allowed && local.readable && |r.bytes| < 100)
      && (local.present && named && local.allowed && !local.readable ==> response.Raised?)
    ensures local.present && NamedXlsx(r.filename) && |r.filename| > 5 && local.allowed && local.readable && |r.bytes| >= 100 ==>
      Imported(s, r, e, local) == Committed(s, r, e)
    ensures !(local.present && NamedXlsx(r.filename) && |r.filename| > 5 && local.allowed && local.readable && |r.bytes| >= 100) ==>
      Imported(s, r, e, local).0 == s
  {
    NamedXlsxIff(r.filename);
  }

  // ----- latest.json names a file with the recorded digest -----

  /** `sha` is the digest function; nothing is assumed of it. */
  ghost predicate Sound(s: State, sha: Bytes -> string) {
    && !s.disk.latest.Corrupt?
    && (s.disk.latest.Named? ==>
          var m := s.disk.latest.meta;
          m.storedPath in s.disk.byHash && sha(s.disk.byHash[m.storedPath]) == m.hash && m.storedPath != "")
    && (s.cache.Some? ==> s.disk.latest == Named(s.cache.value))
  }

  /** The activation overwrites the file that latest.json names with content of another digest, and then fails. */
  predicate Clobbers(s: State, r: Request, e: Env) {
    && ReachesContent(e) && !e.latestWrite.Written?
    && s.disk.latest.Named? && s.disk.latest.meta.storedPath == StoredName(r) && s.disk.latest.meta.hash != r.hash
  }

  /** latest.json stays sound unless two digests share their 12-digit prefix within one second and the second activation fails. */
  lemma CommitKeepsSoundIff(s: State, r: Request, e: Env, sha: Bytes -> string)
    requires Sound(s, sha) && r.hash == sha(r.bytes)
    ensures Sound(Committed(s, r, e).0, sha) <==> !Clobbers(s, r, e)
  {
    assert StoredName(r) != "" by {
      assert |StoredName(r)| >= 5;
    }
  }

  /** Two workbooks whose digests differ only behind the twelfth digit. */
  predicate Clash(first: Request, second: Request) {
    && |first.hash| == 64 == |second.hash| && first.hash[..12] == second.hash[..12] && first.hash != second.hash
    && first.stamp == second.stamp
  }

  /**
   Such a case: two clashing uploads arrive in one second, and latest.json cannot be written for the second. The content
   under latest.json is replaced, latest.json is not, and the digests disagree from then on.
   */
  lemma ClobberingHappens(first: Request, second: Request, counts: Counts, sha: Bytes -> string)
    requires Clash(first, second) && sha(first.bytes) == first.hash && sha(second.bytes) == second.hash
    requires BigEnough(first) && BigEnough(second)
    requires EndsWith(Lower(first.filename), ".xlsx") && EndsWith(Lower(second.filename), ".xlsx")
    ensures var (s, accepted) := Uploaded(EMPTY, first, Env(Parsed(counts), true, Written, true));
      var (t, rejected) := Uploaded(s, second, Env(Parsed(counts), true, SystemError, true));
      && accepted.Accepted? && rejected == Rejected(LATEST_COMMIT_FAILED)
      && Sound(s, sha) && !Sound(t, sha) && Got(t, sha, ReadEnv(true, true, [])).1 == LATEST_EXCEL_HASH_MISMATCH
  {
    assert StoredName(first) == StoredName(second) && |StoredName(first)| > 0;
  }

  // ----- reading -----

  datatype Found = Nothing | Config(meta: Meta) | CONFIG_CORRUPTED | LATEST_EXCEL_MISSING | LATEST_EXCEL_HASH_MISMATCH

  /** One legacy file that exists, with how its migration is answered. */
  datatype Legacy = Legacy(request: Request, env: Env, admitted: bool)

  /** `latestRead` and `contentRead` tell whether the two files can be read. */
  datatype ReadEnv = ReadEnv(latestRead: bool, contentRead: bool, legacy: seq<Legacy>)

  /** Legacy files are tried in order until one is accepted and can be read back. */
  function Migrated(s: State, legacy: seq<Legacy>, latestRead: bool): (State, Option<Meta>)
    decreases |legacy|
  {
    if legacy == [] then (s, None)
    else
      var l := legacy[0];
      var (t, r) := if l.admitted && BigEnough(l.request) then Committed(s, l.request, l.env) else (s, Rejected(EMPTY_EXCEL_FILE));
      if r.Accepted? then (t, if latestRead then Some(r.meta) else None)
      else Migrated(t, legacy[1..], latestRead)
  }

  function Validated(d: Disk, sha: Bytes -> string, e: ReadEnv): Found
    requires !d.latest.Absent?
  {
    if d.latest.Corrupt? || !e.latestRead || d.latest.meta.storedPath == "" then CONFIG_CORRUPTED
    else
      var m := d.latest.meta;
      if m.storedPath !in d.byHash then LATEST_EXCEL_MISSING
      else if m.hash == "" then Config(m)
      else if !e.contentRead then LATEST_EXCEL_MISSING
      else if sha(d.byHash[m.storedPath]) != m.hash then LATEST_EXCEL_HASH_MISMATCH
      else Config(m)
  }

  function Got(s: State, sha: Bytes -> string, e: ReadEnv): (State, Found) {
    if s.disk.latest.Absent? then
      var (t, meta) := Migrated(s, e.legacy, e.latestRead);
      (t.(cache := meta), if meta.Some? then Config(meta.value) else Nothing)
    else
      var found := Validated(s.disk, sha, e);
      (s.(cache := if found.Config? then Some(found.meta) else None), found)
  }

  /** What reading answers when there is a latest.json: the first thing wrong with it, or its record, which is then cached. */
  lemma ReadingIs(s: State, sha: Bytes -> string, e: ReadEnv)
    requires !s.disk.latest.Absent?
    ensures var (t, found) := Got(s, sha, e); var latest := s.disk.latest;
      && t.disk == s.disk && t.cache == (if found.Config? then Some(found.meta) else None) && found != Nothing
      && (found == CONFIG_CORRUPTED <==> latest.Corrupt? || !e.latestRead || latest.meta.storedPath == "")
      && (found == LATEST_EXCEL_MISSING <==>
            && latest.Named? && e.latestRead && latest.meta.storedPath != ""
            && (latest.meta.storedPath !in s.disk.byHash || (latest.meta.hash != "" && !e.contentRead)))
      && (found == LATEST_EXCEL_HASH_MISMATCH <==>
            && latest.Named? && e.latestRead && latest.meta.storedPath != "" && latest.meta.storedPath in s.disk.byHash
            && latest.meta.hash != "" && e.contentRead && sha(s.disk.byHash[latest.meta.storedPath]) != latest.meta.hash)
      && (found.Config? ==> latest.Named? && found.meta == latest.meta)
  {
  }

  /** A legacy file that can be taken over. */
  predicate Migrates(l: Legacy) {
    l.admitted && |l.request.bytes| >= 100 && Works(l.env)
  }

  /** Without a latest.json, reading takes over the first legacy file that it can, or finds nothing. */
  lemma {:induction false} MigrationIs(s: State, legacy: seq<Legacy>, k: nat)
    requires k <= |legacy| && (forall i :: 0 <= i < k ==> !Migrates(legacy[i])) && (k < |legacy| ==> Migrates(legacy[k]))
    requires forall i :: 0 <= i < |legacy| ==> |legacy[i].request.hash| == 64
    ensures var meta := Migrated(s, legacy, true).1;
      if k == |legacy| then meta == None
      else
        var r := legacy[k].request;
        meta == Some(Meta(r.hash, r.stamp + "_" + r.hash[..12] + ".xlsx", r.filename, r.source, legacy[k].env.parse.counts))
    ensures Migrated(s, legacy, false).1 == None
    decreases |legacy|
  {
    if legacy != [] {
      var l := legacy[0];
      CommittedIs(s, l.request, l.env);
      if k > 0 {
        var t := if l.admitted && BigEnough(l.request) then Committed(s, l.request, l.env).0 else s;
        MigrationIs(t, legacy[1..], k - 1);
      }
    }
  }

  // ----- the store as one register -----

  datatype Op = Activate(request: Request, env: Env) | Get(reading: ReadEnv)

  function Stepped(s: State, sha: Bytes -> string, op: Op): State {
    match op
    case Activate(r, e) => Committed(s, r, e).0
    case Get(e) => Got(s, sha, e).0
  }

  /** The register after an operation: an accepted activation, or an accepted migration, replaces its value. */
  function Assigned(reg: Option<Meta>, s: State, sha: Bytes -> string, op: Op): Option<Meta> {
    match op
    case Activate(r, e) => if Committed(s, r, e).1.Accepted? then Some(Committed(s, r, e).1.meta) else reg
    case Get(e) => if s.disk.latest.Absent? then FirstAccepted(s, e.legacy) else reg
  }

  function FirstAccepted(s: State, legacy: seq<Legacy>): Option<Meta>
    decreases |legacy|
  {
    if legacy == [] then None
    else
      var l := legacy[0];
      if l.admitted && BigEnough(l.request) then
        var (t, r) := Committed(s, l.request, l.env);
        if r.Accepted? then Some(r.meta) else FirstAccepted(t, legacy[1..])
      else FirstAccepted(s, legacy[1..])
  }

  /** The digests are right, and no failing activation overwrites the current content with another. */
  ghost predicate Fair(s: State, sha: Bytes -> string, op: Op) {
    match op
    case Activate(r, e) => r.hash == sha(r.bytes) && !Clobbers(s, r, e)
    case Get(e) => forall i :: 0 <= i < |e.legacy| ==> e.legacy[i].request.hash == sha(e.legacy[i].request.bytes)
  }

  /** The register's value is what latest.json says. */
  ghost predicate Represents(s: State, reg: Option<Meta>) {
    s.disk.latest == if reg.Some? then Named(reg.value) else Absent
  }

  lemma {:induction false} MigrationRefines(s: State, sha: Bytes -> string, legacy: seq<Legacy>, latestRead: bool)
    requires Sound(s, sha) && s.disk.latest.Absent? && s.cache.None?
    requires forall i :: 0 <= i < |legacy| ==> legacy[i].request.hash == sha(legacy[i].request.bytes)
    ensures var (t, meta) := Migrated(s, legacy, latestRead);
      && Sound(t, sha) && Represents(t, FirstAccepted(s, legacy))
      && meta == if latestRead then FirstAccepted(s, legacy) else None
    decreases |legacy|
  {
    if legacy != [] {
      var l := legacy[0];
      if l.admitted && BigEnough(l.request) {
        CommitKeepsSoundIff(s, l.request, l.env, sha);
        var (t, r) := Committed(s, l.request, l.env);
        if !r.Accepted? {
          RejectedChangesNothingIff(s, l.request, l.env);
          MigrationRefines(t, sha, legacy[1..], latestRead);
        }
      } else {
        MigrationRefines(s, sha, legacy[1..], latestRead);
      }
    }
  }

  /** Every operation of the store is one operation of the register, and reading returns the register's value. */
  lemma OpRefinesRegister(s: State, sha: Bytes -> string, op: Op, reg: Option<Meta>)
    requires Sound(s, sha) && Represents(s, reg) && Fair(s, sha, op)
    ensures var t := Stepped(s, sha, op); var reg' := Assigned(reg, s, sha, op);
      && Sound(t, sha) && Represents(t, reg')
      && (op.Get? && op.reading.latestRead && op.reading.contentRead ==>
            Got(s, sha, op.reading).1 == (if reg'.Some? then Config(reg'.value) else Nothing) && t.cache == reg')
  {
    match op
    case Activate(r, e) =>
      CommitKeepsSoundIff(s, r, e, sha);
      if !Committed(s, r, e).1.Accepted? {
        RejectedChangesNothingIff(s, r, e);
      }
    case Get(e) =>
      if s.disk.latest.Absent? {
        MigrationRefines(s, sha, e.legacy, e.latestRead);
      }
  }

  ghost function Ran(s: State, sha: Bytes -> string, ops: seq<Op>): State
    decreases |ops|
  {
    if ops == [] then s else Ran(Stepped(s, sha, ops[0]), sha, ops[1..])
  }

  ghost function LastAccepted(reg: Option<Meta>, s: State, sha: Bytes -> string, ops: seq<Op>): Option<Meta>
    decreases |ops|
  {
    if ops == [] then reg
    else LastAccepted(Assigned(reg, s, sha, ops[0]), Stepped(s, sha, ops[0]), sha, ops[1..])
  }

  ghost predicate AllFair(s: State, sha: Bytes -> string, ops: seq<Op>)
    decreases |ops|
  {
    ops == [] || (Fair(s, sha, ops[0]) && AllFair(Stepped(s, sha, ops[0]), sha, ops[1..]))
  }

  lemma {:induction false} RunRefinesRegister(s: State, sha: Bytes -> string, ops: seq<Op>, reg: Option<Meta>)
    requires Sound(s, sha) && Represents(s, reg) && AllFair(s, sha, ops)
    ensures Sound(Ran(s, sha, ops), sha) && Represents(Ran(s, sha, ops), LastAccepted(reg, s, sha, ops))
    decreases |ops|
  {
    if ops != [] {
      OpRefinesRegister(s, sha, ops[0], reg);
      RunRefinesRegister(Stepped(s, sha, ops[0]), sha, ops[1..], Assigned(reg, s, sha, ops[0]));
    }
  }

  /** After any operations with any failures, a readable store without legacy files returns exactly the last accepted activation. */
  lemma GetReturnsTheLastAccepted(sha: Bytes -> string, ops: seq<Op>)
    requires AllFair(EMPTY, sha, ops)
    ensures var last := LastAccepted(None, EMPTY, sha, ops);
      Got(Ran(EMPTY, sha, ops), sha, ReadEnv(true, true, [])).1 == if last.Some? then Config(last.value) else Nothing
  {
    RunRefinesRegister(EMPTY, sha, ops, None);
    OpRefinesRegister(Ran(EMPTY, sha, ops), sha, Get(ReadEnv(true, true, [])), LastAccepted(None, EMPTY, sha, ops));
  }

  // ----- the object -----

  class ExcelConfigStore {
    var byHash: map<string, Bytes>
    var latest: Latest
    var cache: Option<Meta>

    function Now(): State
      reads this
    {
      State(Disk(byHash, latest), cache)
    }

    constructor ()
      ensures Now() == EMPTY
    {
      byHash, latest, cache := map[], Absent, None;
    }

    method ActivateFromUpload(r: Request, e: Env) returns (response: Response)
      modifies this
      ensures (Now(), response) == Uploaded(old(Now()), r, e)
    {
      if !EndsWith(Lower(r.filename), ".xlsx") {
        return Rejected(INVALID_EXCEL_FILE);
      }
      if |r.bytes| < MIN_SIZE {
        return Rejected(EMPTY_EXCEL_FILE);
      }
      response := Commit(r, e);
    }

    method ActivateFromLocalPath(r: Request, e: Env, local: LocalFile) returns (response: Response)
      modifies this
      ensures (Now(), response) == Imported(old(Now()), r, e, local)
    {
      if !local.present {
        return Rejected(EXCEL_PATH_NOT_FOUND);
      }
      if !HasSuffix(r.filename) {
        return Rejected(INVALID_EXCEL_FILE);
      }
      if !local.allowed {
        return Rejected(EXCEL_PATH_NOT_ALLOWED);
      }
      if !local.readable {
        return Raised;
      }
      if |r.bytes| < MIN_SIZE {
        return Rejected(EMPTY_EXCEL_FILE);
      }
      response := Commit(r, e);
    }

    method Commit(r: Request, e: Env) returns (response: Response)
      modifies this
      ensures (Now(), response) == Committed(old(Now()), r, e)
    {
      var name := StoredName(r);
      var existedBefore := name in byHash;
      if e.parse.ParseFileFailed? {
        return Raised;
      }
      if e.parse.ParseFailed? {
        return Rejected(INVALID_EXCEL_CONFIG);
      }
      if !e.byHashWritten {
        return Rejected(FILE_WRITE_ERROR);
      }
      byHash := byHash[name := r.bytes];
      var meta := MetaOf(r, e.parse.counts);
      match e.latestWrite {
        case SystemError =>
          RollbackNewByHash(name, existedBefore, e.unlinked);
          assert old(byHash)[name := r.bytes] - {name} == old(byHash) - {name};
          return Rejected(LATEST_COMMIT_FAILED);
        case OtherError =>
          return Raised;
        case Written =>
          latest := Named(meta);
          cache := Some(meta);
          return Accepted(meta);
      }
    }

    /** A content file that this transaction created is removed again, if removing works. */
    method RollbackNewByHash(name: string, existedBefore: bool, unlinked: bool)
      modifies this`byHash
      ensures byHash == if existedBefore || !unlinked then old(byHash) else old(byHash) - {name}
    {
      if existedBefore || name !in byHash {
        assert !existedBefore ==> byHash - {name} == byHash;
        return;
      }
      if unlinked {
        byHash := byHash - {name};
      }
    }

    method GetLatest(sha: Bytes -> string, e: ReadEnv) returns (found: Found)
      modifies this
      ensures (Now(), found) == Got(old(Now()), sha, e)
    {
      if latest.Absent? {
        var migrated := TryMigrateLegacy(e.legacy, e.latestRead);
        cache := migrated;
        return if migrated.Some? then Config(migrated.value) else Nothing;
      }
      cache := None;
      if latest.Corrupt? || !e.latestRead || latest.meta.storedPath == "" {
        return CONFIG_CORRUPTED;
      }
      var meta := latest.meta;
      if meta.storedPath !in byHash {
        return LATEST_EXCEL_MISSING;
      }
      if meta.hash != "" {
        if !e.contentRead {
          return LATEST_EXCEL_MISSING;
        }
        if sha(byHash[meta.storedPath]) != meta.hash {
          return LATEST_EXCEL_HASH_MISMATCH;
        }
      }
      cache := Some(meta);
      return Config(meta);
    }

    method TryMigrateLegacy(legacy: seq<Legacy>, latestRead: bool) returns (meta: Option<Meta>)
      modifies this
      ensures (Now(), meta) == Migrated(old(Now()), legacy, latestRead)
    {
      var i := 0;
      ghost var start := Now();
      while i < |legacy|
        invariant i <= |legacy|
        invariant Migrated(start, legacy, latestRead) == Migrated(Now(), legacy[i..], latestRead)
      {
        var l := legacy[i];
        if l.admitted && |l.request.bytes| >= MIN_SIZE {
          var response := Commit(l.request, l.env);
          if response.Accepted? {
            return if latestRead then Some(response.meta) else None;
          }
        }
        assert legacy[i..][1..] == legacy[i + 1..];
        i := i + 1;
      }
      return None;
    }
  }
}
