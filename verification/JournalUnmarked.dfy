/** Why the in-flight marker has to be there: a run in which one failed marker write costs a before-image. */
module JournalUnmarked {
  import opened Options
  import opened JournalLog
  import opened JournalWrites
  import opened Retention
  import opened JournalSoundness
  import opened JournalProtocol
  import opened JournalSolo
  import opened JournalInvariant
  import opened JournalSafety

  /** A begin that records one source. */
  function OneSource(target: ObjectRef, text: string): BeginInput {
    BeginInput(Update, target, None, true, None, Some(text), None, None, false, None, [], map[])
  }

  lemma OneSourceWrites(id: Id, target: ObjectRef, text: string)
    ensures BeginWrites(id, OneSource(target, text)) == [(BeforeBlob(id), text)]
  {
  }

  /** What a begin whose marker could not be written has left: a claim only its own process knows. */
  function Unmarked(s: State, pid: Pid, id: Id, input: BeginInput): State {
    s.(given := s.given[id := input], claims := s.claims + {Marker(id, pid)})
  }

  /** Its blob is on disk, and nothing but its own process knows. */
  lemma UnmarkedWrite(s: State, t: TaskId, pid: Pid, id: Id, target: ObjectRef, text: string)
    requires CanStart(s, t, pid) && id !in s.given
    ensures var input := OneSource(target, text);
            RunFrom(s, [StartBegin(t, pid, id, input)] + [Publish(t, false)] + [WriteBlob(t)])
            == At(Unmarked(s, pid, id, input), t, pid, Writing(id, input, 1)).(blobs := s.blobs[BeforeBlob(id) := text])
  {
    hide BeginWrites, RunFrom, OneSource;
    var input := OneSource(target, text);
    var u := Unmarked(s, pid, id, input);
    OneSourceWrites(id, target, text);
    ThenStep(s, [StartBegin(t, pid, id, input)] + [Publish(t, false)], WriteBlob(t));
    BeginStarts(s, t, pid, id, input, false);
    assert u.(markers := s.markers) == u;
    BeginWriteStep(u, t, pid, id, input, 0, u.blobs);
    AtBlobs(u, t, pid, Writing(id, input, 0));
    hide Step, At;
  }

  lemma {:induction false} NoLimitsDropNothing(entries: seq<Record>, inFlight: set<Id>)
    ensures Dropped(entries, None, 0, inFlight) == [] && Kept(entries, None, 0, inFlight) == entries
  {
    if entries != [] {
      NoLimitsDropNothing(entries[..|entries| - 1], inFlight);
    }
  }

  /** A prune without limits, by a process that finds no markers, changes nothing but the blobs, and takes f. */
  lemma SweepTakesOrphan(s: State, t: TaskId, pid: Pid, ordered: seq<Record>, f: BlobName) returns (actions: seq<Action>, blobs: map<BlobName, string>)
    requires CanStart(s, t, pid) && s.lock == None && s.markers == {}
    requires Sorted(Entries(s.index), ordered) && ordered != []
    requires f.part.None? && f.id !in KeptIds(ordered) && Marker(f.id, pid) !in s.claims
    ensures RunFrom(s, actions) == s.(blobs := blobs) && f !in blobs
  {
    hide RunFrom, Sorted, Entries, KeptIds;
    var inFlight := ClaimedBy(s, pid);
    NoLimitsDropNothing(ordered, inFlight);
    actions := SoloPrune(s, t, pid, ordered, None, 0, {});
    assert Dead(s, pid, {}, s.markers) == {} && s.markers - {} == s.markers && IdsOfMarkers({}) == {};
    blobs := Swept(s.blobs, KeptIds(ordered) + {} + inFlight);
    ClaimedIff(s, pid, f.id);
    assert s.(blobs := blobs) == s.(index := s.index, markers := s.markers, blobs := blobs);
  }

  /** The begin does not notice, and its line lands. */
  lemma LandsWithout(s: State, t: TaskId, pid: Pid, id: Id, input: BeginInput, ts: Timestamp)
    requires t in s.tasks && s.tasks[t] == Task(pid, Writing(id, input, |BeginWrites(id, input)|)) && s.lock == None
    ensures var s' := RunFrom(s, [Draft(t, ts, None), Acquire(t), Append(t, true)]);
            s'.index == s.index + [Rec(BeginRecord(id, ts, input, None))] && s'.blobs == s.blobs
  {
    hide RunFrom, BeginWrites, BeginRecord;
    ThreeSteps(s, Draft(t, ts, None), Acquire(t), Append(t, true));
    assert At(s, t, pid, Writing(id, input, |BeginWrites(id, input)|)) == s;
    DraftStep(s, t, pid, id, input, ts, None);
    AcquireStep(s, t, pid, BeginRecord(id, ts, input, None), true);
    AppendStep(s, t, pid, BeginRecord(id, ts, input, None), true);
    hide Step;
  }

  lemma YieldsItsImage(lines: seq<Line>, id: Id, target: ObjectRef, text: string, ts: Timestamp)
    requires id !in IdsOf(lines)
    ensures var lines' := lines + [Rec(BeginRecord(id, ts, OneSource(target, text), None))];
            id in Entries(lines') && BeforeBlob(id) in Refs(Entries(lines')[id])
  {
    var r := BeginRecord(id, ts, OneSource(target, text), None);
    BeginNamesItsBlobs(id, ts, OneSource(target, text), None);
    OneSourceWrites(id, target, text);
    assert (BeforeBlob(id), text) in BeginWrites(id, OneSource(target, text));
    hide BeginRecord, Refs, Yield, Entries;
    MergeRefs(r, r);
    YieldSnoc(lines, r, id);
    EntriesYield(lines + [Rec(r)], id);
  }

  lemma SortedIds(lines: seq<Line>, ordered: seq<Record>, id: Id)
    requires Sorted(Entries(lines), ordered) && id !in IdsOf(lines)
    ensures id !in KeptIds(ordered)
  {
    LatestId(lines, id);
  }

  /**
    Markers are what it takes: from any state with an entry, an idle lock and no markers, one begin
    whose marker write fails can lose its before-image to another process's sweep and still land.
   */
  lemma UnmarkedImageCanBeLost(actions: seq<Action>, t: TaskId, p: Pid, u: TaskId, q: Pid, id: Id, target: ObjectRef, text: string,
                               ts: Timestamp, ordered: seq<Record>)
    requires MarkersWork(actions)
    requires var s := Run(actions);
             && CanStart(s, t, p) && CanStart(s, u, q) && t != u && p != q && s.lock == None && s.markers == {} && id !in s.given
             && Marker(id, q) !in s.claims && Sorted(Entries(s.index), ordered) && ordered != []
    ensures exists more ::
              var s := Run(actions + more);
              id in Entries(s.index) && BeforeBlob(id) in Refs(Entries(s.index)[id]) && BeforeBlob(id) !in s.blobs
  {
    hide Run, RunFrom, Sorted, Entries, KeptIds, Refs, BeginWrites;
    var s, input := Run(actions), OneSource(target, text);
    RunKeeps(actions);
    assert id !in IdsOf(s.index);
    hide Inv;
    OneSourceWrites(id, target, text);
    var a := [StartBegin(t, p, id, input)] + [Publish(t, false)] + [WriteBlob(t)];
    var c := [Draft(t, ts, None), Acquire(t), Append(t, true)];
    UnmarkedWrite(s, t, p, id, target, text);
    var s1 := RunFrom(s, a);
    SortedIds(s.index, ordered, id);
    var b, blobs := SweepTakesOrphan(s1, u, q, ordered, BeforeBlob(id));
    LandsWithout(s1.(blobs := blobs), t, p, id, input, ts);
    YieldsItsImage(s.index, id, target, text, ts);
    FromConcat(s, a, b + c);
    FromConcat(s1, b, c);
    RunConcat(actions, a + (b + c));
  }
}
