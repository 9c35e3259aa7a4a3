/**
  What every entry that survives in the journal of src/journal.ts promises, and that appending,
  writing blobs, compacting and sweeping keep it.
 */
module JournalSoundness {
  import opened Options
  import opened Sequences
  import opened JournalLog
  import opened Undoability
  import opened JournalWrites
  import opened Retention

  // ----- what the disk promises about an entry -------------------------------------------------------

  /** The blob that holds the bytes begin was given. */
  function BeforeBlob(id: Id): BlobName {
    BlobName(id, None, Before)
  }

  ghost predicate KeepsBytes(id: Id, blobs: map<BlobName, string>, input: BeginInput) {
    input.existedBefore && input.beforeSource.Some? ==>
      BeforeBlob(id) in blobs && blobs[BeforeBlob(id)] == input.beforeSource.value
  }

  /** The entry is still what begin was told, and its undo verdict is backed. */
  ghost predicate Faithful(e: Record, input: BeginInput) {
    && IsEntry(e)
    && e.operation.value == input.operation
    && e.target.value == input.target
    && e.existedBefore == Some(input.existedBefore)
    && e.before == BeforeImage(e.id, None, input.existedBefore, input.beforeSource)
    && (Ordinary(e) && e.undoable == Some(true) ==> Backed(e))
  }

  /** Besides, its images are on disk. */
  ghost predicate EntrySound(e: Record, blobs: map<BlobName, string>, input: BeginInput) {
    && Faithful(e, input)
    && Refs(e) <= blobs.Keys
    && (forall b :: b in Refs(e) ==> b.id == e.id)
    && KeepsBytes(e.id, blobs, input)
  }

  ghost predicate Sound(lines: seq<Line>, blobs: map<BlobName, string>, given: map<Id, BeginInput>) {
    && IdsOf(lines) <= given.Keys
    && forall id :: Yield(lines, id).Some? ==> id in given && EntrySound(Yield(lines, id).value, blobs, given[id])
  }

  /**
    An undoable ordinary entry either deletes on positive evidence of absence, or writes back
    exactly the bytes begin was given.
   */
  ghost predicate CanBeUndone(e: Record, blobs: map<BlobName, string>, input: BeginInput)
    requires IsEntry(e)
  {
    match PlannedActionOf(e)
    case PlanDelete => CaptureOf(e).ConfirmedAbsent? && !input.existedBefore
    case _ =>
      && CaptureOf(e).Captured?
      && input.beforeSource.Some?
      && e.before == Some(Image(Some(BeforeBlob(e.id))))
      && BeforeBlob(e.id) in blobs && blobs[BeforeBlob(e.id)] == input.beforeSource.value
  }

  lemma UndoableCanBeUndone(lines: seq<Line>, blobs: map<BlobName, string>, given: map<Id, BeginInput>, id: Id)
    requires Sound(lines, blobs, given) && id in Entries(lines)
    ensures IsEntry(Entries(lines)[id]) && id in given
    ensures var e := Entries(lines)[id];
            e.undoable == Some(true) && Ordinary(e) ==> CanBeUndone(e, blobs, given[id])
  {
    EntriesYield(lines, id);
  }

  // ----- how the pieces change --------------------------------------------------------------------------

  function WriteAll(blobs: map<BlobName, string>, writes: seq<Write>): map<BlobName, string>
    decreases |writes|
  {
    if writes == [] then blobs else WriteAll(blobs[writes[0].0 := writes[0].1], writes[1..])
  }

  lemma {:induction false} WriteAllKeeps(blobs: map<BlobName, string>, writes: seq<Write>)
    ensures WriteAll(blobs, writes).Keys == blobs.Keys + Names(writes)
    ensures forall b :: b in blobs && b !in Names(writes) ==> WriteAll(blobs, writes)[b] == blobs[b]
    decreases |writes|
  {
    if writes != [] {
      WriteAllKeeps(blobs[writes[0].0 := writes[0].1], writes[1..]);
      NamesConcat([writes[0]], writes[1..]);
      assert [writes[0]] + writes[1..] == writes;
      assert Names([writes[0]]) == {writes[0].0} by {
        assert writes[0] in [writes[0]];
      }
    }
  }

  /** Blobs under other ids do not matter to an entry. */
  lemma SoundAcrossWrites(e: Record, blobs: map<BlobName, string>, writes: seq<Write>, input: BeginInput)
    requires EntrySound(e, blobs, input)
    requires forall b :: b in Names(writes) ==> b.id == e.id ==> b.which.After?
    ensures EntrySound(e, WriteAll(blobs, writes), input)
  {
    WriteAllKeeps(blobs, writes);
  }

  lemma YieldSnoc(lines: seq<Line>, r: Record, id: Id)
    ensures id != r.id ==> Yield(lines + [Rec(r)], id) == Yield(lines, id)
    ensures Yield(lines, r.id).Some? ==>
              Yield(lines + [Rec(r)], r.id) == Some(Normalise(Merge(Yield(lines, r.id).value, r)))
    ensures r.id !in IdsOf(lines) ==> Yield(lines + [Rec(r)], r.id) == if IsEntry(r) then Some(Normalise(r)) else None
    ensures Yield(lines, r.id).None? && IsPatch(r) && (Latest(lines, r.id).Some? ==> IsPatch(Latest(lines, r.id).value))
            ==> Yield(lines + [Rec(r)], r.id) == None
  {
    assert (lines + [Rec(r)])[..|lines|] == lines;
    LatestId(lines, r.id);
  }

  lemma IdsSnoc(lines: seq<Line>, r: Record)
    ensures IdsOf(lines + [Rec(r)]) == IdsOf(lines) + {r.id}
  {
    var all := lines + [Rec(r)];
    assert all[|lines|] == Rec(r);
    assert forall l :: l in lines ==> l in all;
  }

  lemma FreshFaithful(id: Id, ts: Timestamp, input: BeginInput, preceding: Option<Record>)
    requires preceding.Some? ==> IsEntry(preceding.value) && IsWrite(preceding.value.operation.value)
    ensures Faithful(Normalise(BeginRecord(id, ts, input, preceding)), input)
  {
    hide WriteTimeUndoability;
    var bare := BareEntry(id, ts, input);
    if Ordinary(bare) && BeginRecord(id, ts, input, preceding).undoable == Some(true) {
      UndoableIsBacked(bare, input.undoBlocker, preceding);
    }
  }

  /** The entry a new begin leaves behind is sound. */
  lemma FreshEntrySound(id: Id, ts: Timestamp, input: BeginInput, preceding: Option<Record>, blobs: map<BlobName, string>)
    requires preceding.Some? ==> IsEntry(preceding.value) && IsWrite(preceding.value.operation.value)
    ensures EntrySound(Normalise(BeginRecord(id, ts, input, preceding)), WriteAll(blobs, BeginWrites(id, input)), input)
  {
    hide BeginRecord, BeginWrites, Faithful, Refs;
    FreshFaithful(id, ts, input, preceding);
    BeginNamesItsBlobs(id, ts, input, preceding);
    MergeRefs(BeginRecord(id, ts, input, preceding), BeginRecord(id, ts, input, preceding));
    WriteAllKeeps(blobs, BeginWrites(id, input));
    FirstWriteStays(id, input, blobs);
  }

  /** The before-image begin writes first is not overwritten by its other blobs. */
  lemma FirstWriteStays(id: Id, input: BeginInput, blobs: map<BlobName, string>)
    ensures KeepsBytes(id, WriteAll(blobs, BeginWrites(id, input)), input)
  {
    if input.existedBefore && input.beforeSource.Some? {
      var all := BeginWrites(id, input);
      var first := all[0];
      assert first == (BeforeBlob(id), input.beforeSource.value);
      var after := if input.afterSource.Some? then [(BlobName(id, None, After), input.afterSource.value)] else [];
      assert all[1..] == after + PartWrites(id, 0, input.parts);
      PartNames(id, 0, input.parts);
      NamesConcat(after, PartWrites(id, 0, input.parts));
      WriteAllKeeps(blobs[first.0 := first.1], all[1..]);
    }
  }

  lemma SoundAfterBegin(lines: seq<Line>, blobs: map<BlobName, string>, given: map<Id, BeginInput>,
                        id: Id, ts: Timestamp, input: BeginInput, preceding: Option<Record>)
    requires Sound(lines, blobs, given) && id !in given
    requires preceding.Some? ==> IsEntry(preceding.value) && IsWrite(preceding.value.operation.value)
    ensures Sound(lines + [Rec(BeginRecord(id, ts, input, preceding))], WriteAll(blobs, BeginWrites(id, input)), given[id := input])
  {
    hide WriteTimeUndoability, BeginRecord, BeginWrites, EntrySound;
    var r := BeginRecord(id, ts, input, preceding);
    var lines' := lines + [Rec(r)];
    IdsSnoc(lines, r);
    BeginNamesItsBlobs(id, ts, input, preceding);
    FreshEntrySound(id, ts, input, preceding, blobs);
    forall i | Yield(lines', i).Some?
      ensures i in given[id := input]
      ensures EntrySound(Yield(lines', i).value, WriteAll(blobs, BeginWrites(id, input)), given[id := input][i])
    {
      YieldSnoc(lines, r, i);
      if i != id {
        YieldIds(lines, i);
        SoundAcrossWrites(Yield(lines, i).value, blobs, BeginWrites(id, input), given[i]);
      }
    }
  }

  lemma YieldIds(lines: seq<Line>, id: Id)
    requires Yield(lines, id).Some?
    ensures id in IdsOf(lines) && Yield(lines, id).value.id == id
  {
    LatestId(lines, id);
  }

  /** A patch that leaves the begin fields alone keeps its entry sound. */
  lemma PatchedEntrySound(e: Record, r: Record, blobs: map<BlobName, string>, input: BeginInput)
    requires EntrySound(e, blobs, input) && r.id == e.id
    requires r.operation.None? && r.target.None? && r.existedBefore.None? && r.before.None?
    requires Refs(r) <= blobs.Keys && forall b :: b in Refs(r) ==> b.id == e.id
    requires var m := Merge(e, r); IsEntry(m) && Ordinary(m) && m.undoable == Some(true) ==> Backed(m)
    ensures EntrySound(Normalise(Merge(e, r)), blobs, input)
  {
    hide PartsRefs;
    MergeRefs(e, r);
    MergeRefs(Merge(e, r), r);
  }

  /** A settle leaves the verdict backed: new evidence can only turn a refused delete into a proven one. */
  lemma SettleStaysBacked(e: Record, input: SettleInput)
    requires IsEntry(e) && (Ordinary(e) && e.undoable == Some(true) ==> Backed(e))
    ensures var m := Merge(e, SettleRecord(e, input));
            IsEntry(m) && (Ordinary(m) && m.undoable == Some(true) ==> Backed(m))
  {
    if ProvesAbsence(e, input) && RefusedForEvidence(e) && Ordinary(e) {
      var up := Upgraded(e);
      if WriteTimeUndoability(up, None, None).undoable {
        UndoableIsBacked(up, None, None);
      }
    }
  }

  /** Appending a patch for an existing entry, with after-images written first. */
  lemma SoundAfterPatch(lines: seq<Line>, blobs: map<BlobName, string>, given: map<Id, BeginInput>, writes: seq<Write>, r: Record)
    requires Sound(lines, blobs, given) && Yield(lines, r.id).Some?
    requires r.operation.None? && r.target.None? && r.existedBefore.None? && r.before.None?
    requires forall b :: b in Names(writes) ==> b.id == r.id && b.which.After?
    requires Refs(r) <= Refs(Yield(lines, r.id).value) + Names(writes)
    requires var m := Merge(Yield(lines, r.id).value, r); IsEntry(m) && (Ordinary(m) && m.undoable == Some(true) ==> Backed(m))
    ensures Sound(lines + [Rec(r)], WriteAll(blobs, writes), given)
  {
    hide EntrySound, Merge, Normalise, Refs, Backed, Ordinary;
    var lines', blobs' := lines + [Rec(r)], WriteAll(blobs, writes);
    IdsSnoc(lines, r);
    YieldIds(lines, r.id);
    forall i | Yield(lines', i).Some?
      ensures i in given && EntrySound(Yield(lines', i).value, blobs', given[i])
    {
      YieldSnoc(lines, r, i);
      if i != r.id {
        YieldIds(lines, i);
        SoundAcrossWrites(Yield(lines, i).value, blobs, writes, given[i]);
      } else {
        var e := Yield(lines, i).value;
        SoundAcrossWrites(e, blobs, writes, given[i]);
        WriteAllKeeps(blobs, writes);
        SoundRefs(e, blobs', given[i]);
        PatchedEntrySound(e, r, blobs', given[i]);
      }
    }
  }

  lemma SoundRefs(e: Record, blobs: map<BlobName, string>, input: BeginInput)
    requires EntrySound(e, blobs, input)
    ensures Refs(e) <= blobs.Keys && forall b :: b in Refs(e) ==> b.id == e.id
  {
  }

  // ----- pruning ---------------------------------------------------------------------------------------

  /** A file the sweep may remove. Part images never are: their stem is not an id (BlobNames). */
  predicate Sweepable(b: BlobName, safe: set<Id>) {
    b.part.None? && b.id !in safe
  }

  function Swept(blobs: map<BlobName, string>, safe: set<Id>): map<BlobName, string> {
    map b | b in blobs && !Sweepable(b, safe) :: blobs[b]
  }

  lemma SoundAfterSweep(lines: seq<Line>, blobs: map<BlobName, string>, given: map<Id, BeginInput>, safe: set<Id>)
    requires Sound(lines, blobs, given)
    requires forall id :: Yield(lines, id).Some? ==> id in safe
    ensures Sound(lines, Swept(blobs, safe), given)
  {
    hide Yield;
    forall id | Yield(lines, id).Some?
      ensures EntrySound(Yield(lines, id).value, Swept(blobs, safe), given[id])
    {
      YieldHasId(lines, id);
      SoundWithFewerBlobs(Yield(lines, id).value, blobs, given[id], safe);
    }
  }

  lemma YieldHasId(lines: seq<Line>, id: Id)
    ensures Yield(lines, id).Some? ==> Yield(lines, id).value.id == id
  {
    LatestId(lines, id);
  }

  lemma SoundWithFewerBlobs(e: Record, blobs: map<BlobName, string>, input: BeginInput, safe: set<Id>)
    requires EntrySound(e, blobs, input) && e.id in safe
    ensures EntrySound(e, Swept(blobs, safe), input)
  {
  }

  /** The rewritten index yields exactly the kept entries, unchanged. */
  lemma RewrittenYields(lines: seq<Line>, keep: seq<Record>, id: Id)
    requires Selection(lines, keep)
    ensures Yield(Rewritten(keep), id) == if id in KeptIds(keep) then Yield(lines, id) else None
  {
    CompactionIsInvisible(lines, keep, [], id);
    assert Rewritten(keep) + [] == Rewritten(keep) && lines + [] == lines;
  }

  lemma SoundAfterRewrite(lines: seq<Line>, blobs: map<BlobName, string>, given: map<Id, BeginInput>, keep: seq<Record>)
    requires Sound(lines, blobs, given) && Selection(lines, keep)
    ensures Sound(Rewritten(keep), blobs, given)
  {
    hide Yield, EntrySound;
    forall id
      ensures Yield(Rewritten(keep), id) == if id in KeptIds(keep) then Yield(lines, id) else None
    {
      RewrittenYields(lines, keep, id);
    }
    forall id | id in IdsOf(Rewritten(keep))
      ensures id in given
    {
      var l :| l in Rewritten(keep) && l.Rec? && l.record.id == id;
      var i :| 0 <= i < |keep| && Rewritten(keep)[i] == l;
      assert Yield(lines, keep[i].id) == Some(keep[i]);
    }
  }

  /** What retention keeps, written back oldest first, is a selection of the entries. */
  lemma RetainedSelection(lines: seq<Line>, ordered: seq<Record>, cutoff: Option<int>, maxEntries: nat, inFlight: set<Id>)
    requires Sorted(Entries(lines), ordered)
    ensures var keep := Kept(ordered, cutoff, maxEntries, inFlight);
            Selection(lines, Reverse(keep)) && KeptIds(Reverse(keep)) == KeptIds(keep)
  {
    var keep := Kept(ordered, cutoff, maxEntries, inFlight);
    var back := Reverse(keep);
    KeptInOrder(ordered, cutoff, maxEntries, inFlight);
    forall i | 0 <= i < |back|
      ensures Yield(lines, back[i].id) == Some(back[i])
    {
      assert back[i] in keep;
      EntriesYield(lines, back[i].id);
    }
    forall i, j | 0 <= i < j < |back|
      ensures back[i].id != back[j].id
    {
      assert keep[|keep| - 1 - j].id > keep[|keep| - 1 - i].id;
    }
    SameIds(keep);
  }

  lemma SameIds(keep: seq<Record>)
    ensures KeptIds(Reverse(keep)) == KeptIds(keep)
  {
    var back := Reverse(keep);
    assert forall i :: 0 <= i < |keep| ==> back[|keep| - 1 - i] == keep[i];
    forall id
      ensures id in KeptIds(back) <==> id in KeptIds(keep)
    {
      if id in KeptIds(keep) {
        var i :| 0 <= i < |keep| && keep[i].id == id;
        assert back[|keep| - 1 - i].id == id;
      }
      if id in KeptIds(back) {
        var i :| 0 <= i < |back| && back[i].id == id;
        assert keep[|keep| - 1 - i].id == id;
      }
    }
  }

  lemma {:induction false} KeptEverything(entries: seq<Record>, cutoff: Option<int>, maxEntries: nat, inFlight: set<Id>)
    requires Dropped(entries, cutoff, maxEntries, inFlight) == []
    ensures Kept(entries, cutoff, maxEntries, inFlight) == entries
  {
    if entries != [] {
      KeptEverything(entries[..|entries| - 1], cutoff, maxEntries, inFlight);
    }
  }

  /** If retention drops nothing, every entry is kept. */
  lemma NothingDropped(lines: seq<Line>, ordered: seq<Record>, cutoff: Option<int>, maxEntries: nat, inFlight: set<Id>)
    requires Sorted(Entries(lines), ordered) && Dropped(ordered, cutoff, maxEntries, inFlight) == []
    ensures KeptIds(Kept(ordered, cutoff, maxEntries, inFlight)) == Entries(lines).Keys
  {
    KeptEverything(ordered, cutoff, maxEntries, inFlight);
    forall id
      ensures id in Entries(lines) <==> id in KeptIds(ordered)
    {
      EntriesYield(lines, id);
      if id in Entries(lines) {
        var i :| 0 <= i < |ordered| && ordered[i] == Entries(lines)[id];
      }
    }
  }

  /** After a prune an entry reads as before or not at all. */
  ghost predicate OnlyDrops(was: seq<Line>, lines: seq<Line>) {
    forall id :: Yield(lines, id) == Yield(was, id) || Yield(lines, id) == None
  }

  /** The index after pruning yields the kept entries and stays sound. */
  lemma PrunedYields(was: seq<Line>, lines: seq<Line>, keep: seq<Record>, blobs: map<BlobName, string>, given: map<Id, BeginInput>)
    requires Sound(was, blobs, given) && Selection(was, Reverse(keep))
    requires lines == Rewritten(Reverse(keep)) || (lines == was && KeptIds(keep) == Entries(was).Keys)
    ensures forall id :: Yield(lines, id) == if id in KeptIds(keep) then Yield(was, id) else None
    ensures Sound(lines, blobs, given) && OnlyDrops(was, lines)
  {
    hide Yield, Sound;
    SameIds(keep);
    forall id
      ensures Yield(lines, id) == if id in KeptIds(keep) then Yield(was, id) else None
    {
      EntriesYield(was, id);
      RewrittenYields(was, Reverse(keep), id);
    }
    SoundAfterRewrite(was, blobs, given, Reverse(keep));
  }

  // ----- patches, once more, in the form the methods use ---------------------------------------------------

  lemma MergeNormal(e: Record, r: Record)
    requires e == Normalise(e) && (r.beforeCapture.Some? ==> r.beforeCapture.value.Known?)
    ensures Normalise(Merge(e, r)) == Merge(e, r)
  {
  }

  lemma YieldIsNormal(lines: seq<Line>, id: Id)
    requires Yield(lines, id).Some?
    ensures Yield(lines, id).value == Normalise(Yield(lines, id).value) && IsEntry(Yield(lines, id).value)
    ensures Yield(lines, id).value.id == id
  {
    LatestId(lines, id);
  }

  lemma PatchFacts(lines: seq<Line>, blobs: map<BlobName, string>, given: map<Id, BeginInput>, e: Record, input: SettleInput)
    requires Sound(lines, blobs, given) && Yield(lines, e.id) == Some(e)
    ensures IsEntry(e)
    ensures var r := SettleRecord(e, input);
            && Sound(lines + [Rec(r)], WriteAll(blobs, SettleWrites(e, input)), given)
            && Yield(lines + [Rec(r)], e.id) == Some(Merge(e, r))
  {
    hide ProvesAbsence, WriteTimeUndoability, Sound;
    YieldIsNormal(lines, e.id);
    SoundEntry(lines, blobs, given, e.id);
    var r := SettleRecord(e, input);
    SettleNamesItsBlobs(e, input);
    SettleStaysBacked(e, input);
    SoundAfterPatch(lines, blobs, given, SettleWrites(e, input), r);
    MergeNormal(e, r);
    YieldSnoc(lines, r, e.id);
  }

  lemma SoundEntry(lines: seq<Line>, blobs: map<BlobName, string>, given: map<Id, BeginInput>, id: Id)
    requires Sound(lines, blobs, given) && Yield(lines, id).Some?
    ensures id in given && EntrySound(Yield(lines, id).value, blobs, given[id])
  {
  }

  /** Patches without images or provenance: reconcile and markUndone. */
  lemma NoteFacts(lines: seq<Line>, blobs: map<BlobName, string>, given: map<Id, BeginInput>, e: Record, r: Record)
    requires Sound(lines, blobs, given) && Yield(lines, e.id) == Some(e) && r.id == e.id
    requires r == Record(r.id, outcome := r.outcome, undoneBy := r.undoneBy, reconciled := r.reconciled, error := r.error)
    ensures Sound(lines + [Rec(r)], blobs, given)
    ensures Yield(lines + [Rec(r)], e.id) == Some(Merge(e, r))
  {
    hide Sound;
    YieldIsNormal(lines, e.id);
    SoundEntry(lines, blobs, given, e.id);
    SoundAfterPatch(lines, blobs, given, [], r);
    MergeNormal(e, r);
    YieldSnoc(lines, r, e.id);
  }
}
