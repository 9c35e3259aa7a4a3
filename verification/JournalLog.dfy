/**
  The journal's append-only index of src/journal.ts: partial records merged shallowly by id in
  file order, what counts as an entry, and the compaction that rewrites kept entries.
 */
module JournalLog {
  import opened Options

  /**
    An entry id. Ids are fixed-width texts that sort by time, so the number a text spells in
    base 256 stands for it.
   */
  type Id = nat

  datatype Which = Before | After

  /** `<id>.before.txt`, `<id>.part<N>.after.txt` and so on. */
  datatype BlobName = BlobName(id: Id, part: Option<nat>, which: Which)

  datatype Image = Image(blob: Option<BlobName>)

  datatype Capture = Captured | ConfirmedAbsent | CaptureFailed | Unknown

  /** What the file says about provenance; anything but the four known words is Garbled. */
  datatype CaptureField = Known(capture: Capture) | Garbled

  datatype Operation =
    | Create | Update | Delete | Activate
    | TransportRelease | TransportOther(name: string) | ServicePublish | ServiceUnpublish

  datatype Outcome = Pending | Succeeded | Failed

  /** subInclude: the source URI names a class include other than the main one. */
  datatype ObjectRef = ObjectRef(kind: string, name: string, subInclude: bool)

  datatype BeforeKind = PackageMetadata | TextPool | BopfModel | EnhImplActive

  /** text orders timestamps as their texts do; parsed is what a date parser makes of it. */
  datatype Timestamp = Timestamp(text: int, parsed: Option<int>)

  datatype Part = Part(target: ObjectRef, existedBefore: bool, beforeCapture: Capture, before: Option<Image>, after: Option<Image>)

  datatype PlannedAction = PlanDelete | PlanRestore | PlanRecreate

  /** Why an entry cannot be undone, by the text that says so. */
  datatype Blocker =
    | NoBlocker
    | CallerText(text: string)
    | TransportReleaseText | ServicePublishText | ServiceUnpublishText | TransportText
    | NoEarlierWrite(target: ObjectRef)
    | AlreadyUndone(id: Id, undoer: Id)
    | PrecedingBlocked(id: Id, inner: Blocker)
    | IrreversibleText
    | DeleteEvidence(name: string, capture: Capture)
    | EnhancementText(operation: Operation)
    | BopfText(operation: Operation)
    | TextPoolText
    | PackageRecreate(name: string)
    | ClassInclude(name: string, action: PlannedAction)
    | NoBeforeImage(name: string, capture: Capture)

  /** Who closed a pending entry on whose word, and when. */
  datatype Reconciliation = Reconciliation(at: string, reason: string, actor: Option<string>)

  /** One JSON line: an id and whatever fields it carries. `other` holds the fields nothing here reads. */
  datatype Record = Record(
    id: Id,
    ts: Option<Timestamp> := None,
    operation: Option<Operation> := None,
    target: Option<ObjectRef> := None,
    outcome: Option<Outcome> := None,
    systemKey: Option<string> := None,
    existedBefore: Option<bool> := None,
    beforeCapture: Option<CaptureField> := None,
    before: Option<Image> := None,
    beforeKind: Option<BeforeKind> := None,
    after: Option<Image> := None,
    parts: Option<seq<Part>> := None,
    irreversible: Option<bool> := None,
    undoable: Option<bool> := None,
    undoBlocker: Option<Blocker> := None,
    undoneBy: Option<Id> := None,
    createEvidence: Option<string> := None,
    reconciled: Option<Reconciliation> := None,
    error: Option<string> := None,
    other: map<string, string> := map[])

  /** A line of the index file; Garbage is a line that does not parse to a record. */
  datatype Line = Garbage | Rec(record: Record)

  // ----- merging --------------------------------------------------------------------------------

  /** `{ ...older, ...newer }`. */
  function Merge(older: Record, newer: Record): Record {
    Record(
      newer.id,
      newer.ts.Else(older.ts),
      newer.operation.Else(older.operation),
      newer.target.Else(older.target),
      newer.outcome.Else(older.outcome),
      newer.systemKey.Else(older.systemKey),
      newer.existedBefore.Else(older.existedBefore),
      newer.beforeCapture.Else(older.beforeCapture),
      newer.before.Else(older.before),
      newer.beforeKind.Else(older.beforeKind),
      newer.after.Else(older.after),
      newer.parts.Else(older.parts),
      newer.irreversible.Else(older.irreversible),
      newer.undoable.Else(older.undoable),
      newer.undoBlocker.Else(older.undoBlocker),
      newer.undoneBy.Else(older.undoneBy),
      newer.createEvidence.Else(older.createEvidence),
      newer.reconciled.Else(older.reconciled),
      newer.error.Else(older.error),
      older.other + newer.other)
  }

  function Combine(older: Option<Record>, newer: Option<Record>): Option<Record> {
    if older.None? then newer else if newer.None? then older else Some(Merge(older.value, newer.value))
  }

  /** Everything the lines say about one id. */
  function Latest(lines: seq<Line>, id: Id): Option<Record> {
    if lines == [] then None
    else
      var last := lines[|lines| - 1];
      Combine(Latest(lines[..|lines| - 1], id), if last.Rec? && last.record.id == id then Some(last.record) else None)
  }

  function IdsOf(lines: seq<Line>): set<Id> {
    set l | l in lines && l.Rec? :: l.record.id
  }

  predicate IsEntry(r: Record) {
    r.ts.Some? && r.operation.Some? && r.outcome.Some? && r.target.Some?
  }

  function NormaliseCapture(field: Option<CaptureField>): Capture {
    if field.Some? && field.value.Known? then field.value.capture else Unknown
  }

  function Normalise(r: Record): Record {
    r.(beforeCapture := Some(Known(NormaliseCapture(r.beforeCapture))))
  }

  /** The entries the index yields. */
  function Entries(lines: seq<Line>): map<Id, Record> {
    map id | id in IdsOf(lines) && Latest(lines, id).Some? && IsEntry(Latest(lines, id).value)
      :: Normalise(Latest(lines, id).value)
  }

  /** One id at a time. */
  function Yield(lines: seq<Line>, id: Id): Option<Record> {
    var r := Latest(lines, id);
    if r.Some? && IsEntry(r.value) then Some(Normalise(r.value)) else None
  }

  lemma {:induction false} LatestId(lines: seq<Line>, id: Id)
    ensures Latest(lines, id).Some? <==> id in IdsOf(lines)
    ensures Latest(lines, id).Some? ==> Latest(lines, id).value.id == id
  {
    if lines != [] {
      var init, last := lines[..|lines| - 1], lines[|lines| - 1];
      LatestId(init, id);
      assert lines == init + [last];
    }
  }

  lemma EntriesYield(lines: seq<Line>, id: Id)
    ensures id in Entries(lines) <==> Yield(lines, id).Some?
    ensures id in Entries(lines) ==> Entries(lines)[id] == Yield(lines, id).value && Entries(lines)[id].id == id
  {
    LatestId(lines, id);
  }

  /** The map the reading loop builds is Latest, id by id. */
  ghost predicate MergedSoFar(lines: seq<Line>, merged: map<Id, Record>) {
    forall id :: Latest(lines, id) == if id in merged then Some(merged[id]) else None
  }

  lemma MergeLine(lines: seq<Line>, line: Line, merged: map<Id, Record>, merged': map<Id, Record>)
    requires MergedSoFar(lines, merged)
    requires line.Garbage? ==> merged' == merged
    requires line.Rec? ==>
      var r := line.record;
      merged' == merged[r.id := if r.id in merged then Merge(merged[r.id], r) else r]
    ensures MergedSoFar(lines + [line], merged')
  {
    hide Merge;
    forall id
      ensures Latest(lines + [line], id) == if id in merged' then Some(merged'[id]) else None
    {
      assert (lines + [line])[..|lines|] == lines;
      assert Latest(lines, id) == if id in merged then Some(merged[id]) else None;
    }
  }

  lemma MergedEntries(lines: seq<Line>, merged: map<Id, Record>)
    requires MergedSoFar(lines, merged)
    ensures Entries(lines) == map id | id in merged && IsEntry(merged[id]) :: Normalise(merged[id])
  {
    hide Merge;
    forall id
      ensures id in merged <==> id in IdsOf(lines)
    {
      LatestId(lines, id);
    }
  }

  /** The reading loop: merges line by line, then drops what is no entry. */
  method ReadAll(lines: seq<Line>) returns (entries: map<Id, Record>)
    ensures entries == Entries(lines)
  {
    var merged: map<Id, Record> := map[];
    for i := 0 to |lines|
      invariant MergedSoFar(lines[..i], merged)
    {
      hide MergedSoFar, Merge;
      ghost var was := merged;
      match lines[i] {
        case Garbage =>
        case Rec(patch) =>
          merged := merged[patch.id := if patch.id in merged then Merge(merged[patch.id], patch) else patch];
      }
      MergeLine(lines[..i], lines[i], was, merged);
      assert lines[..i + 1] == lines[..i] + [lines[i]];
    }
    assert lines[..|lines|] == lines;
    MergedEntries(lines, merged);
    entries := map id | id in merged && IsEntry(merged[id]) :: Normalise(merged[id]);
  }

  // ----- each field by itself --------------------------------------------------------------------

  /** What the last line about an id that carries a field says in it. */
  ghost function LastSaid<T>(lines: seq<Line>, id: Id, field: Record -> Option<T>): Option<T> {
    if lines == [] then None
    else
      var last := lines[|lines| - 1];
      if last.Rec? && last.record.id == id && field(last.record).Some? then field(last.record)
      else LastSaid(lines[..|lines| - 1], id, field)
  }

  /** A field that merging treats by itself, the newer record first. */
  ghost predicate MergedAlone<T(!new)>(field: Record -> Option<T>) {
    forall a: Record, b: Record {:trigger field(Merge(a, b))} :: field(Merge(a, b)) == field(b).Else(field(a))
  }

  lemma {:induction false} FieldIsLastSaid<T(!new)>(lines: seq<Line>, id: Id, field: Record -> Option<T>)
    requires MergedAlone(field)
    ensures Latest(lines, id).Some? ==> field(Latest(lines, id).value) == LastSaid(lines, id, field)
    ensures Latest(lines, id).None? ==> LastSaid(lines, id, field) == None
  {
    hide Merge;
    if lines != [] {
      FieldIsLastSaid(lines[..|lines| - 1], id, field);
    }
  }

  /** Everything an entry says is what the last line that mentions it says. */
  lemma EveryFieldIsLastSaid(lines: seq<Line>, id: Id)
    requires Latest(lines, id).Some?
    ensures var r := Latest(lines, id).value;
            && r.ts == LastSaid(lines, id, (x: Record) => x.ts)
            && r.operation == LastSaid(lines, id, (x: Record) => x.operation)
            && r.target == LastSaid(lines, id, (x: Record) => x.target)
            && r.outcome == LastSaid(lines, id, (x: Record) => x.outcome)
            && r.systemKey == LastSaid(lines, id, (x: Record) => x.systemKey)
            && r.existedBefore == LastSaid(lines, id, (x: Record) => x.existedBefore)
            && r.beforeCapture == LastSaid(lines, id, (x: Record) => x.beforeCapture)
            && r.before == LastSaid(lines, id, (x: Record) => x.before)
            && r.beforeKind == LastSaid(lines, id, (x: Record) => x.beforeKind)
    ensures var r := Latest(lines, id).value;
            && r.after == LastSaid(lines, id, (x: Record) => x.after)
            && r.parts == LastSaid(lines, id, (x: Record) => x.parts)
            && r.irreversible == LastSaid(lines, id, (x: Record) => x.irreversible)
            && r.undoable == LastSaid(lines, id, (x: Record) => x.undoable)
            && r.undoBlocker == LastSaid(lines, id, (x: Record) => x.undoBlocker)
            && r.undoneBy == LastSaid(lines, id, (x: Record) => x.undoneBy)
            && r.createEvidence == LastSaid(lines, id, (x: Record) => x.createEvidence)
            && r.reconciled == LastSaid(lines, id, (x: Record) => x.reconciled)
            && r.error == LastSaid(lines, id, (x: Record) => x.error)
  {
    FieldIsLastSaid(lines, id, (x: Record) => x.ts);
    FieldIsLastSaid(lines, id, (x: Record) => x.operation);
    FieldIsLastSaid(lines, id, (x: Record) => x.target);
    FieldIsLastSaid(lines, id, (x: Record) => x.outcome);
    FieldIsLastSaid(lines, id, (x: Record) => x.systemKey);
    FieldIsLastSaid(lines, id, (x: Record) => x.existedBefore);
    FieldIsLastSaid(lines, id, (x: Record) => x.beforeCapture);
    FieldIsLastSaid(lines, id, (x: Record) => x.before);
    FieldIsLastSaid(lines, id, (x: Record) => x.beforeKind);
    FieldIsLastSaid(lines, id, (x: Record) => x.after);
    FieldIsLastSaid(lines, id, (x: Record) => x.parts);
    FieldIsLastSaid(lines, id, (x: Record) => x.irreversible);
    FieldIsLastSaid(lines, id, (x: Record) => x.undoable);
    FieldIsLastSaid(lines, id, (x: Record) => x.undoBlocker);
    FieldIsLastSaid(lines, id, (x: Record) => x.undoneBy);
    FieldIsLastSaid(lines, id, (x: Record) => x.createEvidence);
    FieldIsLastSaid(lines, id, (x: Record) => x.reconciled);
    FieldIsLastSaid(lines, id, (x: Record) => x.error);
  }

  // ----- compaction -------------------------------------------------------------------------------

  lemma MergeAssociative(a: Record, b: Record, c: Record)
    ensures Merge(Merge(a, b), c) == Merge(a, Merge(b, c))
  {
    assert (a.other + b.other) + c.other == a.other + (b.other + c.other);
  }

  lemma CombineAssociative(a: Option<Record>, b: Option<Record>, c: Option<Record>)
    ensures Combine(Combine(a, b), c) == Combine(a, Combine(b, c))
  {
    if a.Some? && b.Some? && c.Some? {
      MergeAssociative(a.value, b.value, c.value);
    }
  }

  lemma {:induction false} LatestConcat(front: seq<Line>, back: seq<Line>, id: Id)
    ensures Latest(front + back, id) == Combine(Latest(front, id), Latest(back, id))
  {
    var all := front + back;
    if back == [] {
      assert all == front;
    } else {
      var init, last := back[..|back| - 1], back[|back| - 1];
      assert all[..|all| - 1] == front + init;
      LatestConcat(front, init, id);
      var own := if last.Rec? && last.record.id == id then Some(last.record) else None;
      CombineAssociative(Latest(front, id), Latest(init, id), own);
    }
  }

  /** What prune writes back: one whole line for each kept entry. */
  function Rewritten(keep: seq<Record>): (lines: seq<Line>)
    ensures |lines| == |keep| && forall i :: 0 <= i < |keep| ==> lines[i] == Rec(keep[i])
  {
    seq(|keep|, i requires 0 <= i < |keep| => Rec(keep[i]))
  }

  /** Some of the entries the index yields, none twice. */
  ghost predicate Selection(lines: seq<Line>, keep: seq<Record>) {
    && (forall i :: 0 <= i < |keep| ==> Yield(lines, keep[i].id) == Some(keep[i]))
    && (forall i, j :: 0 <= i < j < |keep| ==> keep[i].id != keep[j].id)
  }

  function KeptIds(keep: seq<Record>): set<Id> {
    set i | 0 <= i < |keep| :: keep[i].id
  }

  lemma {:induction false} LatestRewritten(keep: seq<Record>, id: Id)
    requires forall i, j :: 0 <= i < j < |keep| ==> keep[i].id != keep[j].id
    ensures id !in KeptIds(keep) ==> Latest(Rewritten(keep), id) == None
    ensures forall i :: 0 <= i < |keep| && keep[i].id == id ==> Latest(Rewritten(keep), id) == Some(keep[i])
  {
    if keep != [] {
      var init, last := keep[..|keep| - 1], keep[|keep| - 1];
      LatestRewritten(init, id);
      assert Rewritten(keep)[..|keep| - 1] == Rewritten(init);
      assert last.id in KeptIds(keep);
      assert KeptIds(init) <= KeptIds(keep);
      forall i | 0 <= i < |keep| && keep[i].id == id
        ensures Latest(Rewritten(keep), id) == Some(keep[i])
      {
        if i < |init| {
          assert init[i] == keep[i];
        } else {
          assert id !in KeptIds(init);
        }
      }
    }
  }

  /** Normalising early does not show. */
  lemma NormaliseEarly(a: Record, b: Record)
    ensures Normalise(Merge(Normalise(a), b)) == Normalise(Merge(a, b))
  {
  }

  /**
    Compaction is invisible: whatever is appended later, a kept id reads the same from the
    rewritten index as from the original one, and a dropped id reads as if only the later
    records existed.
   */
  lemma CompactionIsInvisible(lines: seq<Line>, keep: seq<Record>, later: seq<Line>, id: Id)
    requires Selection(lines, keep)
    ensures id in KeptIds(keep) ==> Yield(Rewritten(keep) + later, id) == Yield(lines + later, id)
    ensures id !in KeptIds(keep) ==> Yield(Rewritten(keep) + later, id) == Yield(later, id)
  {
    LatestConcat(lines, later, id);
    LatestConcat(Rewritten(keep), later, id);
    LatestRewritten(keep, id);
    if id in KeptIds(keep) {
      var i :| 0 <= i < |keep| && keep[i].id == id;
      assert Yield(lines, id) == Some(keep[i]);
      if Latest(later, id).Some? {
        NormaliseEarly(Latest(lines, id).value, Latest(later, id).value);
      }
    }
  }

  /** The patches settle, reconcile and markUndone append: no timestamp, hence no entry by themselves. */
  predicate IsPatch(r: Record) {
    r.ts.None?
  }

  lemma {:induction false} PatchesMakeNoEntry(lines: seq<Line>, id: Id)
    requires forall l :: l in lines && l.Rec? && l.record.id == id ==> IsPatch(l.record)
    ensures Latest(lines, id).Some? ==> IsPatch(Latest(lines, id).value)
  {
    if lines != [] {
      PatchesMakeNoEntry(lines[..|lines| - 1], id);
    }
  }

  /** A pruned entry stays gone, however late its patches land. */
  lemma DroppedStaysDropped(lines: seq<Line>, keep: seq<Record>, later: seq<Line>, id: Id)
    requires Selection(lines, keep) && id !in KeptIds(keep)
    requires forall l :: l in later && l.Rec? && l.record.id == id ==> IsPatch(l.record)
    ensures Yield(Rewritten(keep) + later, id) == None
  {
    CompactionIsInvisible(lines, keep, later, id);
    PatchesMakeNoEntry(later, id);
  }

  // ----- the blobs a record names ------------------------------------------------------------------

  function ImageRefs(image: Option<Image>): set<BlobName> {
    if image.Some? && image.value.blob.Some? then {image.value.blob.value} else {}
  }

  function PartRefs(part: Part): set<BlobName> {
    ImageRefs(part.before) + ImageRefs(part.after)
  }

  function PartsRefs(parts: seq<Part>): set<BlobName> {
    if parts == [] then {} else PartRefs(parts[0]) + PartsRefs(parts[1..])
  }

  /** Every blob file the record points to. */
  function Refs(r: Record): set<BlobName> {
    ImageRefs(r.before) + ImageRefs(r.after) + if r.parts.Some? then PartsRefs(r.parts.value) else {}
  }

  lemma MergeRefs(a: Record, b: Record)
    ensures Refs(Merge(a, b)) <= Refs(a) + Refs(b)
    ensures Refs(Normalise(a)) == Refs(a)
  {
  }
}
