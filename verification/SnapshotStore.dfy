/** The on-disk snapshot store of src/snapshot-store.ts, and that it is a map whose entries expire. */
module SnapshotStore {
  import opened Options
  import opened SnapshotDiff

  /** What a snapshot file says; expiresAt is None when its date does not parse. */
  datatype Snapshot = Snapshot(id: string, systemKey: string, createdAt: string, expiresAt: Option<int>, data: Table)

  datatype Content = Stored(snap: Snapshot) | Malformed

  datatype Path = Path(dir: string, name: string)

  type Files = map<Path, Content>

  datatype Answer = Found(snap: Snapshot) | NotFound | Expired(snap: Snapshot) | Refused

  // ----- names ----------------------------------------------------------------------------------------

  predicate IsHex(c: char) {
    '0' <= c <= '9' || 'a' <= c <= 'f'
  }

  /** `snap_` and 32 hex digits. */
  predicate IsId(s: string) {
    |s| == 37 && s[..5] == "snap_" && forall i :: 5 <= i < 37 ==> IsHex(s[i])
  }

  function FileName(id: string): string {
    id + ".json"
  }

  predicate IsSnapshotFile(name: string) {
    |name| == 42 && name[37..] == ".json" && IsId(name[..37])
  }

  function PathOf(hash: string -> string, systemKey: string, id: string): Path {
    Path(hash(systemKey), FileName(id))
  }

  lemma NamesAreOurs(id: string)
    requires IsId(id)
    ensures IsSnapshotFile(FileName(id)) && FileName(id)[..37] == id
  {
    assert FileName(id)[37..] == ".json" && FileName(id)[..37] == id;
  }

  lemma IdOfDigits(digits: string)
    requires |digits| == 32 && forall c :: c in digits ==> c in "0123456789abcdef"
    ensures IsId("snap_" + digits)
  {
    var s := "snap_" + digits;
    forall i | 5 <= i < 37 ensures IsHex(s[i]) {
      assert s[i] == digits[i - 5] && digits[i - 5] in digits;
      HexDigits(s[i]);
    }
    assert s[..5] == "snap_";
  }

  lemma DigitsOfId(s: string)
    requires IsId(s)
    ensures s == "snap_" + s[5..] && forall c :: c in s[5..] ==> c in "0123456789abcdef"
  {
    var digits := s[5..];
    forall c | c in digits ensures c in "0123456789abcdef" {
      var i :| 0 <= i < |digits| && digits[i] == c;
      assert s[i + 5] == c && IsHex(c);
      HexDigits(c);
    }
  }

  /** Ids are `snap_` and 32 lower-case hexadecimal digits, and nothing else names a snapshot file. */
  lemma IdsAre(s: string)
    ensures IsId(s) <==> exists digits: string :: |digits| == 32 && s == "snap_" + digits && forall c :: c in digits ==> c in "0123456789abcdef"
    ensures IsSnapshotFile(s) <==> exists id :: IsId(id) && s == id + ".json"
  {
    if IsId(s) {
      DigitsOfId(s);
    }
    forall digits: string | |digits| == 32 && s == "snap_" + digits && forall c :: c in digits ==> c in "0123456789abcdef"
      ensures IsId(s)
    {
      IdOfDigits(digits);
    }
    if IsSnapshotFile(s) {
      assert s == s[..37] + ".json";
    }
    forall id | IsId(id) && s == id + ".json" ensures IsSnapshotFile(s) {
      NamesAreOurs(id);
    }
  }

  lemma HexDigits(c: char)
    ensures IsHex(c) <==> c in "0123456789abcdef"
  {
    var digits := "0123456789abcdef";
    if IsHex(c) {
      var i := if c <= '9' then c as int - '0' as int else c as int - 'a' as int + 10;
      assert digits[i] == c;
    }
  }

  /** A file system path stands for one system and one id. */
  lemma PathsDiffer(hash: string -> string, k: string, i: string, l: string, j: string)
    requires Injective(hash) && IsId(i) && IsId(j) && PathOf(hash, k, i) == PathOf(hash, l, j)
    ensures k == l && i == j
  {
    NamesAreOurs(i);
    NamesAreOurs(j);
  }

  /** No two system keys share a directory. */
  ghost predicate Injective(hash: string -> string) {
    forall k, l :: hash(k) == hash(l) ==> k == l
  }

  // ----- expiry and pruning -------------------------------------------------------------------------------

  /** An unreadable date counts as expired. */
  predicate IsExpiredAt(snap: Snapshot, now: int) {
    snap.expiresAt.None? || snap.expiresAt.value <= now
  }

  predicate Prunable(p: Path, content: Content, dir: string, now: int) {
    p.dir == dir && IsSnapshotFile(p.name) && (content.Malformed? || IsExpiredAt(content.snap, now))
  }

  function Pruned(files: Files, dir: string, now: int): Files {
    map p | p in files && !Prunable(p, files[p], dir, now) :: files[p]
  }

  function AfterWrite(files: Files, hash: string -> string, snap: Snapshot, now: int): Files {
    if !IsId(snap.id) then files
    else Pruned(files, hash(snap.systemKey), now)[PathOf(hash, snap.systemKey, snap.id) := Stored(snap)]
  }

  function AnswerTo(files: Files, hash: string -> string, id: string, systemKey: string, now: int): Answer {
    var p := PathOf(hash, systemKey, id);
    if !IsId(id) then Refused
    else if p !in files || files[p].Malformed? || files[p].snap.systemKey != systemKey then NotFound
    else if IsExpiredAt(files[p].snap, now) then Expired(files[p].snap)
    else Found(files[p].snap)
  }

  /** The asked-for file's own fate first, then the rest of the directory, by a possibly later clock. */
  function AfterRead(files: Files, hash: string -> string, id: string, systemKey: string, now: int, later: int): Files {
    match AnswerTo(files, hash, id, systemKey, now)
    case Expired(_) => files - {PathOf(hash, systemKey, id)}
    case Found(_) => Pruned(files, hash(systemKey), later)
    case _ => files
  }

  predicate Listable(p: Path, content: Content, dir: string, systemKey: string) {
    p.dir == dir && IsSnapshotFile(p.name) && content.Stored? && content.snap.systemKey == systemKey
  }

  // ----- the store ----------------------------------------------------------------------------------------

  class Store {
    const hash: string -> string
    var files: Files

    constructor (hash: string -> string, files: Files)
      ensures this.hash == hash && this.files == files
    {
      this.hash, this.files := hash, files;
    }

    method Prune(systemKey: string, now: int) returns (removed: nat)
      modifies this
      ensures files == Pruned(old(files), hash(systemKey), now)
      ensures forall p :: p in old(files) ==>
        (p !in files <==>
           && p.dir == hash(systemKey) && IsSnapshotFile(p.name)
           && (old(files)[p].Malformed? || old(files)[p].snap.expiresAt.None? || old(files)[p].snap.expiresAt.value <= now))
      ensures forall p :: p in files ==> p in old(files) && files[p] == old(files)[p]
      ensures removed == |old(files)| - |files|
    {
      removed := 0;
      var dir, names := hash(systemKey), files.Keys;
      while names != {}
        invariant names <= files.Keys <= old(files).Keys
        invariant forall p :: p in files ==> files[p] == old(files)[p]
        invariant forall p :: p in old(files) && p !in names ==> (p in files <==> !Prunable(p, old(files)[p], dir, now))
        invariant removed + |files| == |old(files)|
        decreases |names|
      {
        var p :| p in names;
        names := names - {p};
        if p.dir == dir && IsSnapshotFile(p.name) && (files[p].Malformed? || IsExpiredAt(files[p].snap, now)) {
          files := files - {p};
          removed := removed + 1;
        }
      }
    }

    method Write(snap: Snapshot, now: int) returns (ok: bool)
      modifies this
      ensures ok <==> IsId(snap.id)
      ensures files == AfterWrite(old(files), hash, snap, now)
    {
      if !IsId(snap.id) {
        return false;
      }
      var _ := Prune(snap.systemKey, now);
      files := files[PathOf(hash, snap.systemKey, snap.id) := Stored(snap)];
      ok := true;
    }

    method Read(id: string, systemKey: string, now: int, later: int) returns (answer: Answer)
      modifies this
      ensures answer == AnswerTo(old(files), hash, id, systemKey, now)
      ensures files == AfterRead(old(files), hash, id, systemKey, now, later)
    {
      if !IsId(id) {
        return Refused;
      }
      var p := PathOf(hash, systemKey, id);
      if p !in files || files[p].Malformed? {
        return NotFound;
      }
      var snap := files[p].snap;
      if snap.systemKey != systemKey {
        return NotFound;
      }
      if IsExpiredAt(snap, now) {
        files := files - {p};
        return Expired(snap);
      }
      var _ := Prune(systemKey, later);
      answer := Found(snap);
    }

    method List(systemKey: string, now: int) returns (out: seq<Snapshot>)
      modifies this
      ensures files == Pruned(old(files), hash(systemKey), now)
      ensures forall s :: s in out <==>
        exists p :: p in files && Listable(p, files[p], hash(systemKey), systemKey) && files[p].snap == s
    {
      var _ := Prune(systemKey, now);
      out := [];
      var dir, names := hash(systemKey), files.Keys;
      while names != {}
        invariant names <= files.Keys
        invariant forall s :: s in out ==>
          exists p :: p in files && p !in names && Listable(p, files[p], dir, systemKey) && files[p].snap == s
        invariant forall p :: p in files && p !in names && Listable(p, files[p], dir, systemKey) ==> files[p].snap in out
        decreases |names|
      {
        var p :| p in names;
        ghost var was, before := out, names;
        names := names - {p};
        if IsSnapshotFile(p.name) && p.dir == dir && files[p].Stored? && files[p].snap.systemKey == systemKey {
          out := out + [files[p].snap];
        }
        forall s | s in out
          ensures exists q :: q in files && q !in names && Listable(q, files[q], dir, systemKey) && files[q].snap == s
        {
          if s in was {
            var q :| q in files && q !in before && Listable(q, files[q], dir, systemKey) && files[q].snap == s;
            assert q !in names;
          } else {
            assert p !in names && files[p].snap == s;
          }
        }
      }
    }
  }

  // ----- a map whose entries expire ---------------------------------------------------------------------------

  datatype Event =
    | Wrote(snap: Snapshot, now: int)
    | WasRead(id: string, systemKey: string, now: int, later: int)
    | Listed(systemKey: string, now: int)
    | PrunedAt(systemKey: string, now: int)

  function End(e: Event): int {
    if e.WasRead? && e.later > e.now then e.later else e.now
  }

  function StepFiles(hash: string -> string, files: Files, e: Event): Files {
    match e
    case Wrote(snap, now) => AfterWrite(files, hash, snap, now)
    case WasRead(id, systemKey, now, later) => AfterRead(files, hash, id, systemKey, now, later)
    case Listed(systemKey, now) => Pruned(files, hash(systemKey), now)
    case PrunedAt(systemKey, now) => Pruned(files, hash(systemKey), now)
  }

  function RunFiles(hash: string -> string, start: Files, events: seq<Event>): Files {
    if events == [] then start
    else StepFiles(hash, RunFiles(hash, start, events[..|events| - 1]), events[|events| - 1])
  }

  /** The abstract map: what was last written under a system and an id. */
  function LastWritten(events: seq<Event>, systemKey: string, id: string): Option<Snapshot> {
    if events == [] then None
    else
      var e := events[|events| - 1];
      if e.Wrote? && e.snap.systemKey == systemKey && e.snap.id == id then Some(e.snap)
      else LastWritten(events[..|events| - 1], systemKey, id)
  }

  /** The clock never runs backwards, and stands at most at t after the run. */
  ghost predicate Clocked(events: seq<Event>, t: int) {
    && (forall i :: 0 <= i < |events| ==> End(events[i]) <= t)
    && (forall i, j :: 0 <= i < j < |events| ==> End(events[i]) <= events[j].now)
  }

  /** At the start there may be foreign files, but none named like a snapshot. */
  ghost predicate OnlyForeign(start: Files) {
    forall p :: p in start ==> !IsSnapshotFile(p.name)
  }

  predicate IsLive(s: Option<Snapshot>, now: int) {
    s.Some? && !IsExpiredAt(s.value, now)
  }

  /** What is on disk under a name was written last, and what was written last and is live is on disk. */
  ghost predicate Mirrors(files: Files, p: Path, last: Option<Snapshot>, now: int) {
    && (p in files ==> last.Some? && files[p] == Stored(last.value))
    && (IsLive(last, now) ==> p in files)
  }

  /** One event keeps disk and map in step, by any clock from its end on. */
  lemma StepMirrors(hash: string -> string, files: Files, e: Event, systemKey: string, id: string, last: Option<Snapshot>, now: int)
    requires Injective(hash) && IsId(id) && End(e) <= now
    requires Mirrors(files, PathOf(hash, systemKey, id), last, e.now)
    requires last.Some? ==> last.value.systemKey == systemKey && last.value.id == id
    ensures var last' := if e.Wrote? && e.snap.systemKey == systemKey && e.snap.id == id then Some(e.snap) else last;
            Mirrors(StepFiles(hash, files, e), PathOf(hash, systemKey, id), last', now)
  {
    hide IsId, IsSnapshotFile, FileName, Injective;
    match e
    case Wrote(snap, _) =>
      if IsId(snap.id) && PathOf(hash, snap.systemKey, snap.id) == PathOf(hash, systemKey, id) {
        PathsDiffer(hash, snap.systemKey, snap.id, systemKey, id);
      }
    case WasRead(other, key, _, _) =>
      if IsId(other) && PathOf(hash, key, other) == PathOf(hash, systemKey, id) {
        PathsDiffer(hash, key, other, systemKey, id);
      }
    case Listed(_, _) =>
    case PrunedAt(_, _) =>
  }

  lemma {:induction false} LastWrittenFits(events: seq<Event>, systemKey: string, id: string)
    ensures var last := LastWritten(events, systemKey, id);
            last.Some? ==> last.value.systemKey == systemKey && last.value.id == id
  {
    if events != [] {
      LastWrittenFits(events[..|events| - 1], systemKey, id);
    }
  }

  lemma {:induction false} RunMirrors(hash: string -> string, start: Files, events: seq<Event>, systemKey: string, id: string, now: int)
    requires Injective(hash) && OnlyForeign(start) && Clocked(events, now) && IsId(id)
    ensures Mirrors(RunFiles(hash, start, events), PathOf(hash, systemKey, id), LastWritten(events, systemKey, id), now)
  {
    if events == [] {
      NamesAreOurs(id);
    } else {
      var before, e := events[..|events| - 1], events[|events| - 1];
      RunMirrors(hash, start, before, systemKey, id, e.now);
      LastWrittenFits(before, systemKey, id);
      hide Mirrors, StepFiles, Injective, PathOf, IsId;
      StepMirrors(hash, RunFiles(hash, start, before), e, systemKey, id, LastWritten(before, systemKey, id), now);
    }
  }

  /**
    After any run, a read answers with a snapshot exactly if that one was written last under this
    system and id and is dated strictly later than now; an expired answer names the last one written,
    which is undated or dated at or before now.
   */
  lemma ReadsLikeAnExpiringMap(hash: string -> string, start: Files, events: seq<Event>, id: string, systemKey: string, now: int)
    requires Injective(hash) && OnlyForeign(start) && Clocked(events, now) && IsId(id)
    ensures var answer := AnswerTo(RunFiles(hash, start, events), hash, id, systemKey, now);
            var last := LastWritten(events, systemKey, id);
            && (forall s :: answer == Found(s) <==> last == Some(s) && s.expiresAt.Some? && s.expiresAt.value > now)
            && (answer.Expired? ==> last == Some(answer.snap) && (answer.snap.expiresAt.None? || answer.snap.expiresAt.value <= now))
            && !answer.Refused?
  {
    RunMirrors(hash, start, events, systemKey, id, now);
    LastWrittenFits(events, systemKey, id);
  }

  /** A listing is the live part of the map for that system. */
  lemma ListsTheLiveOnes(hash: string -> string, start: Files, events: seq<Event>, systemKey: string, id: string, now: int)
    requires Injective(hash) && OnlyForeign(start) && Clocked(events, now) && IsId(id)
    ensures var files := Pruned(RunFiles(hash, start, events), hash(systemKey), now);
            var p, last := PathOf(hash, systemKey, id), LastWritten(events, systemKey, id);
            && (p in files && Listable(p, files[p], hash(systemKey), systemKey)
                <==> last.Some? && last.value.expiresAt.Some? && last.value.expiresAt.value > now)
            && (p in files ==> last.Some? && files[p] == Stored(last.value))
  {
    RunMirrors(hash, start, events, systemKey, id, now);
    LastWrittenFits(events, systemKey, id);
    NamesAreOurs(id);
  }

  /** No run ever touches a file that is not named like a snapshot. */
  lemma {:induction false} ForeignFilesStay(hash: string -> string, start: Files, events: seq<Event>, p: Path)
    requires !IsSnapshotFile(p.name)
    ensures var files := RunFiles(hash, start, events);
            (p in files <==> p in start) && (p in start ==> files[p] == start[p])
  {
    if events != [] {
      var before, e := events[..|events| - 1], events[|events| - 1];
      ForeignFilesStay(hash, start, before, p);
      ForeignStep(hash, RunFiles(hash, start, before), e, p);
    }
  }

  lemma ForeignStep(hash: string -> string, files: Files, e: Event, p: Path)
    requires !IsSnapshotFile(p.name)
    ensures var files' := StepFiles(hash, files, e);
            (p in files' <==> p in files) && (p in files ==> files'[p] == files[p])
  {
    if e.Wrote? && IsId(e.snap.id) {
      NamesAreOurs(e.snap.id);
    }
    if e.WasRead? && IsId(e.id) {
      NamesAreOurs(e.id);
    }
  }
}
