/**
  The write journal of src/journal.ts as one process sees it, one call at a time: the index,
  the blob directory and the in-flight set behind begin, settle, reconcile, markUndone and prune.
 */
module Journals {
  import opened Options
  import opened Sequences
  import opened Text
  import opened JournalLog
  import opened Undoability
  import opened JournalWrites
  import opened Retention
  import opened JournalSoundness

  datatype Refusal = Disabled | UnknownEntry | NotTerminal | AlreadySettled | BadInput
  datatype Result<T> = Done(value: T) | Refused(why: Refusal)

  const DAY_MS := 86_400_000

  /** An empty actor is none. */
  function NonEmpty(actor: Option<string>): Option<string> {
    if actor == Some("") then None else actor
  }

  // ----- what a prune leaves ---------------------------------------------------------------------------

  /** Older than a number of days, by a timestamp that parses; no number of days is no limit. */
  ghost predicate OlderThan(e: Record, days: nat, now: int) {
    days > 0 && e.ts.Some? && e.ts.value.parsed.Some? && e.ts.value.parsed.value < now - days * 24 * 60 * 60 * 1000
  }

  /** Retention on the entries there were, and the sweep of everything that is neither kept nor claimed. */
  ghost predicate PrunedTo(was: seq<Line>, wasBlobs: map<BlobName, string>, lines: seq<Line>, blobs: map<BlobName, string>,
                           ordered: seq<Record>, cutoff: Option<int>, maxEntries: nat, inFlight: set<Id>, registered: set<Id>) {
    if Entries(was) == map[] then lines == was && blobs == wasBlobs
    else
      var keep := Kept(ordered, cutoff, maxEntries, inFlight);
      && Sorted(Entries(was), ordered)
      && (forall id :: Yield(lines, id) == if id in KeptIds(keep) then Yield(was, id) else None)
      && blobs == Swept(wasBlobs, KeptIds(keep) + inFlight + registered)
  }

  lemma CutoffIsDays(e: Record, days: nat, now: int, cutoff: Option<int>)
    requires cutoff == if days > 0 then Some(now - days * DAY_MS) else None
    ensures DatedBefore(e, cutoff) <==> OlderThan(e, days, now)
  {
    if OlderThan(e, days, now) {
      assert cutoff == Some(cutoff.value) && e.ts.value.parsed == Some(e.ts.value.parsed.value);
    }
  }

  lemma KeptById(ordered: seq<Record>, i: nat, cutoff: Option<int>, maxEntries: nat, inFlight: set<Id>)
    requires NewestFirst(ordered) && i < |ordered|
    ensures ordered[i].id in KeptIds(Kept(ordered, cutoff, maxEntries, inFlight)) <==> ordered[i] in Kept(ordered, cutoff, maxEntries, inFlight)
  {
    KeptInOrder(ordered, cutoff, maxEntries, inFlight);
    var keep := Kept(ordered, cutoff, maxEntries, inFlight);
    hide Kept;
    if ordered[i].id in KeptIds(keep) {
      var k :| 0 <= k < |keep| && keep[k].id == ordered[i].id;
      assert keep[k] in ordered;
      var j :| 0 <= j < |ordered| && ordered[j] == keep[k];
      assert j == i;
    }
  }

  lemma NothingYielded(lines: seq<Line>)
    requires Entries(lines) == map[]
    ensures forall id :: Yield(lines, id) == None
  {
    forall id ensures Yield(lines, id) == None {
      EntriesYield(lines, id);
    }
  }

  /** Which entries a prune drops for their age, on the timestamps. */
  lemma PrunedForAge(was: seq<Line>, wasBlobs: map<BlobName, string>, lines: seq<Line>, blobs: map<BlobName, string>,
                     ordered: seq<Record>, days: nat, now: int, maxEntries: nat, inFlight: set<Id>, registered: set<Id>, id: Id)
    requires var cutoff := if days > 0 then Some(now - days * DAY_MS) else None;
             PrunedTo(was, wasBlobs, lines, blobs, ordered, cutoff, maxEntries, inFlight, registered)
    requires Yield(was, id).Some?
    ensures OlderThan(Yield(was, id).value, days, now) && id !in inFlight ==> Yield(lines, id).None?
    ensures maxEntries == 0 ==> (Yield(lines, id).None? <==> OlderThan(Yield(was, id).value, days, now) && id !in inFlight)
    ensures id in inFlight ==> Yield(lines, id) == Yield(was, id)
  {
    var cutoff := if days > 0 then Some(now - days * DAY_MS) else None;
    var e := Yield(was, id).value;
    hide Yield, Kept, KeptIds, Swept;
    EntriesYield(was, id);
    assert e in ordered;
    var i :| 0 <= i < |ordered| && ordered[i] == e;
    hide Sorted, Entries, DatedBefore, OlderThan;
    CutoffIsDays(e, days, now, cutoff);
    DroppedForAge(ordered, i, cutoff, maxEntries, inFlight);
    KeptById(ordered, i, cutoff, maxEntries, inFlight);
    KeptIff(ordered, i, cutoff, maxEntries, inFlight);
  }

  // ----- reading in file order -----------------------------------------------------------------------

  /** Entry ids by first appearance, the iteration order of the merged map. */
  function FirstSeen(lines: seq<Line>): seq<Id> {
    if lines == [] then []
    else
      var before, last := FirstSeen(lines[..|lines| - 1]), lines[|lines| - 1];
      if last.Rec? && last.record.id !in before then before + [last.record.id] else before
  }

  function EntriesAt(lines: seq<Line>, ids: seq<Id>): (r: seq<Record>)
    ensures forall i :: 0 <= i < |r| ==> IsEntry(r[i])
  {
    if ids == [] then []
    else
      var y := Yield(lines, ids[0]);
      (if y.Some? then [y.value] else []) + EntriesAt(lines, ids[1..])
  }

  method ListEntries(lines: seq<Line>) returns (entries: seq<Record>)
    ensures entries == EntriesAt(lines, FirstSeen(lines))
    ensures forall i :: 0 <= i < |entries| ==> IsEntry(entries[i])
  {
    var all := ReadAll(lines);
    var order: seq<Id> := [];
    for i := 0 to |lines|
      invariant order == FirstSeen(lines[..i])
    {
      assert lines[..i + 1][..i] == lines[..i];
      if lines[i].Rec? && lines[i].record.id !in order {
        order := order + [lines[i].record.id];
      }
    }
    assert lines[..|lines|] == lines;
    entries := [];
    for i := 0 to |order|
      invariant entries == EntriesAt(lines, order[..i])
    {
      hide Yield, Entries;
      EntriesYield(lines, order[i]);
      EntriesAtSnoc(lines, order[..i], order[i]);
      assert order[..i + 1] == order[..i] + [order[i]];
      if order[i] in all {
        entries := entries + [all[order[i]]];
      }
    }
    assert order[..|order|] == order;
  }

  lemma {:induction false} EntriesAtSnoc(lines: seq<Line>, ids: seq<Id>, id: Id)
    ensures EntriesAt(lines, ids + [id]) == EntriesAt(lines, ids) + if Yield(lines, id).Some? then [Yield(lines, id).value] else []
  {
    hide Yield;
    if ids == [] {
      assert ids + [id] == [id];
      assert EntriesAt(lines, [id][1..]) == [];
    } else {
      EntriesAtSnoc(lines, ids[1..], id);
      assert (ids + [id])[1..] == ids[1..] + [id];
    }
  }

  /** The preceding write of an activation; nothing for any other operation. */
  ghost predicate IsPreceding(upper: string -> string, lines: seq<Line>, entry: Record, preceding: Option<Record>)
    requires IsEntry(entry)
  {
    var entries := EntriesAt(lines, FirstSeen(lines));
    var at := PositionOf(entries, entry.id);
    && (preceding.Some? ==> IsEntry(preceding.value) && IsWrite(preceding.value.operation.value))
    && (!entry.operation.value.Activate? ==> preceding.None?)
    && (entry.operation.value.Activate? && preceding.None? ==>
          forall i :: 0 <= i < |entries| ==> !Candidate(upper, entries, entry, i, at))
    && (preceding.Some? ==>
          exists i :: 0 <= i < |entries| && preceding.value == entries[i] && Candidate(upper, entries, entry, i, at)
            && forall j :: 0 <= j < |entries| && j != i && Candidate(upper, entries, entry, j, at) ==> LaterThan(entries, i, j))
  }

  /** markUndone touches one field of one entry. */
  lemma UndoneFacts(lines: seq<Line>, e: Record, undoneBy: Id)
    requires Yield(lines, e.id) == Some(e)
    ensures Merge(e, UndoneRecord(e.id, undoneBy)) == e.(undoneBy := Some(undoneBy))
    ensures forall other :: other != e.id ==> Yield(lines + [Rec(UndoneRecord(e.id, undoneBy))], other) == Yield(lines, other)
  {
    hide Yield;
    assert e.other + map[] == e.other;
    forall other | other != e.id
      ensures Yield(lines + [Rec(UndoneRecord(e.id, undoneBy))], other) == Yield(lines, other)
    {
      YieldSnoc(lines, UndoneRecord(e.id, undoneBy), other);
    }
  }

  // ----- the journal -----------------------------------------------------------------------------------

  class Journal {
    const enabled: bool
    const maxEntries: nat
    const maxAgeDays: nat
    const upper: string -> string
    var index: seq<Line>
    var blobs: map<BlobName, string>
    var inFlight: set<Id>
    var lineCount: Option<nat>
    /** What begin was given, for every id it ever minted. */
    ghost var given: map<Id, BeginInput>

    ghost predicate Valid()
      reads this
    {
      Sound(index, blobs, given)
    }

    constructor (enabled: bool, maxEntries: nat, maxAgeDays: nat, upper: string -> string)
      ensures Valid() && index == [] && blobs == map[] && inFlight == {} && given == map[]
      ensures this.enabled == enabled && this.maxEntries == maxEntries && this.maxAgeDays == maxAgeDays
    {
      this.enabled := enabled;
      this.maxEntries := maxEntries;
      this.maxAgeDays := maxAgeDays;
      this.upper := upper;
      index, blobs, inFlight, lineCount, given := [], map[], {}, None, map[];
    }

    method Append(record: Record)
      modifies this`index, this`lineCount
      ensures index == old(index) + [Rec(record)]
      ensures lineCount == if old(lineCount).Some? then Some(old(lineCount).value + 1) else None
    {
      index := index + [Rec(record)];
      if lineCount.Some? {
        lineCount := Some(lineCount.value + 1);
      }
    }

    method WriteImages(writes: seq<Write>)
      modifies this`blobs
      ensures blobs == WriteAll(old(blobs), writes)
    {
      for i := 0 to |writes|
        invariant WriteAll(blobs, writes[i..]) == WriteAll(old(blobs), writes)
      {
        assert writes[i..][1..] == writes[i + 1..];
        blobs := blobs[writes[i].0 := writes[i].1];
      }
    }

    /** Records intent and before-image: blobs first, then the line that names them. */
    method Begin(id: Id, ts: Timestamp, input: BeginInput, registered: set<Id>, now: int)
      returns (entry: Option<Record>, ghost preceding: Option<Record>)
      requires Valid() && id !in given && id !in inFlight
      modifies this
      ensures Valid() && inFlight == old(inFlight)
      ensures !enabled ==> entry == None && index == old(index) && blobs == old(blobs) && given == old(given)
      ensures enabled ==> IsPreceding(upper, old(index), BareEntry(id, ts, input), preceding)
      ensures enabled ==> entry == Some(BeginRecord(id, ts, input, preceding)) && given == old(given)[id := input]
      ensures enabled ==> OnlyDrops(old(index) + [Rec(entry.value)], index)
    {
      preceding := None;
      if !enabled {
        return None, None;
      }
      inFlight := inFlight + {id};
      WriteImages(BeginWrites(id, input));
      var bare := BareEntry(id, ts, input);
      var found: Option<Record> := None;
      if input.operation.Activate? {
        var all := ListEntries(index);
        var best;
        found, best := PrecedingWriteEntry(upper, all, bare);
      }
      preceding := found;
      var record := BeginRecord(id, ts, input, found);
      SoundAfterBegin(index, old(blobs), given, id, ts, input, found);
      Append(record);
      given := given[id := input];
      inFlight := inFlight - {id};
      entry := Some(record);
      MaybePrune(registered, now);
    }

    /** Appends a terminal outcome, with any after-images first. */
    method Settle(id: Id, input: SettleInput) returns (result: Result<Record>)
      requires Valid()
      modifies this`index, this`blobs, this`lineCount
      ensures Valid()
      ensures result.Refused? ==> index == old(index) && blobs == old(blobs)
      ensures result == Refused(Disabled) <==> !enabled
      ensures result == Refused(NotTerminal) <==> enabled && input.outcome.Pending?
      ensures result == Refused(UnknownEntry) <==> enabled && !input.outcome.Pending? && old(Yield(index, id)).None?
      ensures result.Done? ==>
        var existing := old(Yield(index, id)).value;
        && index == old(index) + [Rec(SettleRecord(existing, input))]
        && blobs == WriteAll(old(blobs), SettleWrites(existing, input))
        && Yield(index, id) == Some(result.value)
        && result.value.outcome == Some(input.outcome)
    {
      if !enabled {
        return Refused(Disabled);
      }
      if input.outcome.Pending? {
        return Refused(NotTerminal);
      }
      var all := ReadAll(index);
      EntriesYield(index, id);
      if id !in all {
        return Refused(UnknownEntry);
      }
      var existing := all[id];
      var record := SettleRecord(existing, input);
      PatchFacts(index, blobs, given, existing, input);
      WriteImages(SettleWrites(existing, input));
      Append(record);
      result := Done(Merge(existing, record));
    }

    /** Closes a pending entry on somebody's word, and only a pending one; the reason is recorded trimmed. */
    method Reconcile(id: Id, outcome: Outcome, reason: string, at: string, actor: Option<string>) returns (result: Result<Record>)
      requires Valid()
      modifies this`index, this`lineCount
      ensures Valid()
      ensures result.Refused? ==> index == old(index)
      ensures result.Done? <==>
        && enabled && !outcome.Pending? && Trim(reason) != ""
        && old(Yield(index, id)).Some? && old(Yield(index, id)).value.outcome == Some(Pending)
      ensures result == Refused(AlreadySettled) <==>
        && enabled && !outcome.Pending? && Trim(reason) != ""
        && old(Yield(index, id)).Some? && old(Yield(index, id)).value.outcome != Some(Pending)
      ensures result.Done? ==>
        var why := Reconciliation(at, Trim(reason), NonEmpty(actor));
        && index == old(index) + [Rec(ReconcileRecord(id, outcome, why))]
        && Yield(index, id) == Some(result.value)
        && result.value.outcome == Some(outcome) && result.value.reconciled == Some(why)
        && (outcome.Failed? ==> result.value.error == Some(Trim(reason)))
        && result.value.undoable == old(Yield(index, id)).value.undoable
    {
      if !enabled {
        return Refused(Disabled);
      }
      var trimmed := Trim(reason);
      if outcome.Pending? || trimmed == "" {
        return Refused(BadInput);
      }
      var all := ReadAll(index);
      EntriesYield(index, id);
      if id !in all {
        return Refused(UnknownEntry);
      }
      var existing := all[id];
      if existing.outcome != Some(Pending) {
        return Refused(AlreadySettled);
      }
      var record := ReconcileRecord(id, outcome, Reconciliation(at, trimmed, NonEmpty(actor)));
      NoteFacts(index, blobs, given, existing, record);
      Append(record);
      result := Done(Merge(existing, record));
    }

    method MarkUndone(id: Id, undoneBy: Id) returns (result: Result<()>)
      requires Valid()
      modifies this`index, this`lineCount
      ensures Valid()
      ensures result.Refused? ==> index == old(index)
      ensures result.Done? <==> enabled && old(Yield(index, id)).Some?
      ensures result.Done? ==> Yield(index, id) == Some(old(Yield(index, id)).value.(undoneBy := Some(undoneBy)))
      ensures forall other :: other != id ==> Yield(index, other) == old(Yield(index, other))
    {
      if !enabled {
        return Refused(Disabled);
      }
      var all := ReadAll(index);
      EntriesYield(index, id);
      if id !in all {
        return Refused(BadInput);
      }
      var record := UndoneRecord(id, undoneBy);
      NoteFacts(index, blobs, given, all[id], record);
      UndoneFacts(index, all[id], undoneBy);
      Append(record);
      result := Done(());
    }

    /** Prunes once the index has outgrown its cap by a quarter. */
    method MaybePrune(registered: set<Id>, now: int)
      requires Valid()
      modifies this`index, this`blobs, this`lineCount
      ensures Valid() && OnlyDrops(old(index), index)
      ensures !enabled || maxEntries == 0 || 4 * (if old(lineCount).Some? then old(lineCount).value else |old(index)|) <= 5 * maxEntries ==>
        index == old(index) && blobs == old(blobs)
      ensures enabled && maxEntries > 0 && 4 * (if old(lineCount).Some? then old(lineCount).value else |old(index)|) > 5 * maxEntries ==>
        exists ordered :: PrunedTo(old(index), old(blobs), index, blobs, ordered, Cutoff(now), maxEntries, inFlight, registered)
    {
      if maxEntries == 0 {
        return;
      }
      if lineCount.None? {
        lineCount := Some(|index|);
      }
      if 4 * lineCount.value <= 5 * maxEntries {
        return;
      }
      hide Valid, Sound, PrunedTo, OnlyDrops;
      var _, _, ordered := Prune(registered, now);
      if enabled {
        assert PrunedTo(old(index), old(blobs), index, blobs, ordered, Cutoff(now), maxEntries, inFlight, registered);
      }
    }

    /** The retention half of a prune: decides, and rewrites the index if anything goes. */
    method Compact(all: map<Id, Record>, cutoff: Option<int>) returns (keep: seq<Record>, removed: nat, ghost ordered: seq<Record>)
      requires Valid() && all == Entries(index)
      modifies this`index, this`lineCount
      ensures Valid() && OnlyDrops(old(index), index)
      ensures Sorted(all, ordered) && keep == Kept(ordered, cutoff, maxEntries, inFlight)
      ensures removed == |Dropped(ordered, cutoff, maxEntries, inFlight)|
      ensures forall id :: Yield(index, id) == if id in KeptIds(keep) then Yield(old(index), id) else None
    {
      hide Sound, Yield, Selection, Kept, Dropped, Sorted, Entries, KeptIds, Rewritten;
      forall id | id in all
        ensures all[id].id == id
      {
        EntriesYield(index, id);
      }
      var sorted := SortNewestFirst(all);
      ordered := sorted;
      var drop;
      keep, drop := Retain(sorted, cutoff, maxEntries, inFlight);
      ghost var was := index;
      RetainedSelection(was, sorted, cutoff, maxEntries, inFlight);
      if |drop| > 0 {
        index := Rewritten(Reverse(keep));
      } else {
        NothingDropped(was, sorted, cutoff, maxEntries, inFlight);
      }
      lineCount := Some(|keep|);
      removed := |drop|;
      PrunedYields(was, index, keep, blobs, given);
    }

    /**
      Applies retention, rewrites the index if anything goes, and sweeps blobs nobody can reach.
      Kept entries read exactly as before; everything else is gone.
     */
    method Prune(registered: set<Id>, now: int) returns (removedEntries: nat, removedBlobs: nat, ghost ordered: seq<Record>)
      requires Valid()
      modifies this`index, this`blobs, this`lineCount
      ensures Valid() && OnlyDrops(old(index), index)
      ensures !enabled || old(Entries(index)) == map[] ==>
        removedEntries == removedBlobs == 0 && index == old(index) && blobs == old(blobs)
      ensures enabled ==> PrunedTo(old(index), old(blobs), index, blobs, ordered, Cutoff(now), maxEntries, inFlight, registered)
      ensures enabled && old(Entries(index)) != map[] ==>
        removedEntries == |Dropped(ordered, Cutoff(now), maxEntries, inFlight)| && removedBlobs == |old(blobs)| - |blobs|
      ensures enabled ==> forall id :: old(Yield(index, id)).Some? ==>
        && (OlderThan(old(Yield(index, id)).value, maxAgeDays, now) && id !in inFlight ==> Yield(index, id).None?)
        && (maxEntries == 0 ==> (Yield(index, id).None? <==> OlderThan(old(Yield(index, id)).value, maxAgeDays, now) && id !in inFlight))
    {
      hide Sound, Yield, Kept, Dropped, Sorted, Entries, KeptIds, Swept;
      removedEntries, removedBlobs, ordered := 0, 0, [];
      if !enabled {
        return;
      }
      var all := ReadAll(index);
      if all == map[] {
        NothingYielded(index);
        return;
      }
      var keep;
      keep, removedEntries, ordered := Compact(all, Cutoff(now));
      var safe := KeptIds(keep) + inFlight + registered;
      removedBlobs := Sweep(safe);
      SoundAfterSweep(index, old(blobs), given, safe);
      assert PrunedTo(old(index), old(blobs), index, blobs, ordered, Cutoff(now), maxEntries, inFlight, registered);
      hide OlderThan, PrunedTo;
      forall id | old(Yield(index, id)).Some?
        ensures OlderThan(old(Yield(index, id)).value, maxAgeDays, now) && id !in inFlight ==> Yield(index, id).None?
        ensures maxEntries == 0 ==> (Yield(index, id).None? <==> OlderThan(old(Yield(index, id)).value, maxAgeDays, now) && id !in inFlight)
      {
        PrunedForAge(old(index), old(blobs), index, blobs, ordered, maxAgeDays, now, maxEntries, inFlight, registered, id);
      }
    }

    function Cutoff(now: int): Option<int> {
      if maxAgeDays > 0 then Some(now - maxAgeDays * DAY_MS) else None
    }

    /** Unlinks every whole-entry blob whose id is not safe. */
    method Sweep(safe: set<Id>) returns (removed: nat)
      modifies this`blobs
      ensures blobs == Swept(old(blobs), safe)
      ensures removed == |old(blobs)| - |blobs|
    {
      removed := 0;
      var files := blobs.Keys;
      while files != {}
        invariant files <= blobs.Keys <= old(blobs).Keys
        invariant forall b :: b in blobs ==> blobs[b] == old(blobs)[b]
        invariant forall b :: b in old(blobs) && b !in files ==> (b in blobs <==> !Sweepable(b, safe))
        invariant removed + |blobs| == |old(blobs)|
        decreases |files|
      {
        var f :| f in files;
        files := files - {f};
        if Sweepable(f, safe) {
          blobs := blobs - {f};
          removed := removed + 1;
        }
      }
    }
  }
}
