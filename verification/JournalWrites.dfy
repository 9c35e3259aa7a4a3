/** What begin, settle, reconcile and markUndone put on disk: records and the blobs they name. */
module JournalWrites {
  import opened Options
  import opened Text
  import opened JournalLog
  import opened Undoability

  datatype PartInput = PartInput(
    target: ObjectRef, existedBefore: bool, beforeCapture: Option<Capture>,
    beforeSource: Option<string>, afterSource: Option<string>)

  datatype BeginInput = BeginInput(
    operation: Operation, target: ObjectRef, systemKey: Option<string>,
    existedBefore: bool, beforeCapture: Option<Capture>, beforeSource: Option<string>,
    beforeKind: Option<BeforeKind>, afterSource: Option<string>,
    irreversible: bool, undoBlocker: Option<string>, parts: seq<PartInput>, other: map<string, string>)

  // ----- begin ------------------------------------------------------------------------------------

  /** Provenance the caller did not state is never positive evidence of absence. */
  function DeriveCapture(stated: Option<Capture>, existed: bool, source: Option<string>): Capture {
    if stated.Some? then stated.value
    else if !existed then Unknown
    else if source.Some? then Captured
    else CaptureFailed
  }

  /** Present exactly when the object existed; without a blob when its source could not be read. */
  function BeforeImage(id: Id, part: Option<nat>, existed: bool, source: Option<string>): Option<Image> {
    if !existed then None
    else Some(Image(if source.Some? then Some(BlobName(id, part, Before)) else None))
  }

  function AfterImage(id: Id, part: Option<nat>, source: Option<string>): Option<Image> {
    if source.None? then None else Some(Image(Some(BlobName(id, part, After))))
  }

  function BeginPart(id: Id, n: nat, p: PartInput): Part {
    Part(p.target, p.existedBefore, DeriveCapture(p.beforeCapture, p.existedBefore, p.beforeSource),
         BeforeImage(id, Some(n), p.existedBefore, p.beforeSource), AfterImage(id, Some(n), p.afterSource))
  }

  function BeginParts(id: Id, n: nat, ps: seq<PartInput>): seq<Part>
    decreases |ps|
  {
    if ps == [] then [] else [BeginPart(id, n, ps[0])] + BeginParts(id, n + 1, ps[1..])
  }

  /** The entry before its own undo verdict. */
  function BareEntry(id: Id, ts: Timestamp, input: BeginInput): (r: Record)
    ensures IsEntry(r) && r.id == id
  {
    Record(
      id, Some(ts), Some(input.operation), Some(input.target), Some(Pending),
      systemKey := input.systemKey,
      existedBefore := Some(input.existedBefore),
      beforeCapture := Some(Known(DeriveCapture(input.beforeCapture, input.existedBefore, input.beforeSource))),
      before := BeforeImage(id, None, input.existedBefore, input.beforeSource),
      beforeKind := input.beforeKind,
      after := AfterImage(id, None, input.afterSource),
      parts := if input.parts == [] then None else Some(BeginParts(id, 0, input.parts)),
      irreversible := if input.irreversible then Some(true) else None,
      other := input.other)
  }

  function BeginRecord(id: Id, ts: Timestamp, input: BeginInput, preceding: Option<Record>): (r: Record)
    requires preceding.Some? ==> IsEntry(preceding.value) && IsWrite(preceding.value.operation.value)
    ensures IsEntry(r) && r.id == id
  {
    var verdict := WriteTimeUndoability(BareEntry(id, ts, input), input.undoBlocker, preceding);
    BareEntry(id, ts, input).(undoable := Some(verdict.undoable), undoBlocker := Some(verdict.blocker))
  }

  /** What an entry says is what begin was told. */
  lemma BeginSaysWhatItWasTold(id: Id, ts: Timestamp, input: BeginInput, preceding: Option<Record>)
    requires preceding.Some? ==> IsEntry(preceding.value) && IsWrite(preceding.value.operation.value)
    ensures var r := BeginRecord(id, ts, input, preceding);
            && r.ts == Some(ts) && r.operation == Some(input.operation) && r.target == Some(input.target)
            && r.outcome == Some(Pending) && r.systemKey == input.systemKey && r.existedBefore == Some(input.existedBefore)
            && r.beforeKind == input.beforeKind && r.other == input.other
            && (r.irreversible == Some(true) <==> input.irreversible)
            && r.undoneBy.None? && r.createEvidence.None? && r.reconciled.None? && r.error.None?
  {
    hide WriteTimeUndoability;
  }

  /** Each part of an entry says what begin was told of it, under its own number. */
  lemma {:induction false} BeginPartSays(id: Id, n: nat, ps: seq<PartInput>, i: nat)
    requires i < |ps|
    ensures |BeginParts(id, n, ps)| == |ps|
    ensures var part, p := BeginParts(id, n, ps)[i], ps[i];
            && part.target == p.target && part.existedBefore == p.existedBefore
            && (part.beforeCapture == ConfirmedAbsent <==> p.beforeCapture == Some(ConfirmedAbsent))
            && (part.beforeCapture == Captured <==>
                  p.beforeCapture == Some(Captured) || (p.beforeCapture.None? && p.existedBefore && p.beforeSource.Some?))
            && part.before == (if !p.existedBefore then None
                               else Some(Image(if p.beforeSource.Some? then Some(BlobName(id, Some(n + i), Before)) else None)))
            && part.after == if p.afterSource.Some? then Some(Image(Some(BlobName(id, Some(n + i), After)))) else None
    decreases |ps|
  {
    if i > 0 {
      BeginPartSays(id, n + 1, ps[1..], i - 1);
    } else if |ps| > 1 {
      BeginPartSays(id, n + 1, ps[1..], 0);
    }
  }

  /** Provenance as stated; unstated, it is positive about what was read and never about what was absent. */
  lemma ProvenanceIff(id: Id, ts: Timestamp, input: BeginInput, preceding: Option<Record>)
    requires preceding.Some? ==> IsEntry(preceding.value) && IsWrite(preceding.value.operation.value)
    ensures var capture := BeginRecord(id, ts, input, preceding).beforeCapture;
            && (capture == Some(Known(ConfirmedAbsent)) <==> input.beforeCapture == Some(ConfirmedAbsent))
            && (capture == Some(Known(Captured)) <==>
                  input.beforeCapture == Some(Captured) || (input.beforeCapture.None? && input.existedBefore && input.beforeSource.Some?))
            && (capture == Some(Known(CaptureFailed)) <==>
                  input.beforeCapture == Some(CaptureFailed) || (input.beforeCapture.None? && input.existedBefore && input.beforeSource.None?))
  {
    hide WriteTimeUndoability;
  }

  /**
    From begin's own input: an ordinary write is journalled as undoable exactly if nobody blocked it,
    it is reversible, no rule for packages or class includes stands against it, and either its
    source was read before it was changed or its absence was stated as confirmed.
   */
  lemma BeginUndoableIff(id: Id, ts: Timestamp, input: BeginInput, preceding: Option<Record>)
    requires IsWrite(input.operation)
    requires input.target.kind !in {"ENHO/XH", "ENHO/XHH", "ENHS/XS", "BOBF", "PROG/PX", "CLAS/OCX", "FUGR/PX"}
    requires preceding.Some? ==> IsEntry(preceding.value) && IsWrite(preceding.value.operation.value)
    ensures BeginRecord(id, ts, input, preceding).undoable == Some(true) <==>
              && (input.undoBlocker == None || input.undoBlocker == Some("")) && !input.irreversible
              && !(input.operation.Delete? && input.target.kind == "DEVC/K")
              && !(input.target.kind == "CLAS/OC" && input.target.subInclude && (input.operation.Delete? || !input.existedBefore))
              && if input.operation.Delete? || input.existedBefore then
                   input.existedBefore && input.beforeSource.Some? && (input.beforeCapture.None? || input.beforeCapture == Some(Captured))
                 else input.beforeCapture == Some(ConfirmedAbsent)
    ensures BeginRecord(id, ts, input, preceding).undoable in {Some(true), Some(false)}
  {
    var bare := BareEntry(id, ts, input);
    OrdinaryUndoableIff(bare, preceding);
    NeverUndoable(bare, input.undoBlocker, preceding);
    ProvenanceIff(id, ts, input, preceding);
    hide WriteTimeUndoability;
  }

  type Write = (BlobName, string)

  function ImageWrites(id: Id, part: Option<nat>, existed: bool, before: Option<string>, after: Option<string>): seq<Write> {
    (if existed && before.Some? then [(BlobName(id, part, Before), before.value)] else [])
    + (if after.Some? then [(BlobName(id, part, After), after.value)] else [])
  }

  function PartWrites(id: Id, n: nat, ps: seq<PartInput>): seq<Write>
    decreases |ps|
  {
    if ps == [] then []
    else ImageWrites(id, Some(n), ps[0].existedBefore, ps[0].beforeSource, ps[0].afterSource) + PartWrites(id, n + 1, ps[1..])
  }

  /** The blobs begin writes, in order, before its index line. */
  function BeginWrites(id: Id, input: BeginInput): seq<Write> {
    ImageWrites(id, None, input.existedBefore, input.beforeSource, input.afterSource) + PartWrites(id, 0, input.parts)
  }

  function Names(writes: seq<Write>): set<BlobName> {
    set w | w in writes :: w.0
  }

  lemma NamesConcat(a: seq<Write>, b: seq<Write>)
    ensures Names(a + b) == Names(a) + Names(b)
  {
  }

  lemma ImageNames(id: Id, part: Option<nat>, existed: bool, before: Option<string>, after: Option<string>)
    ensures Names(ImageWrites(id, part, existed, before, after))
         == ImageRefs(BeforeImage(id, part, existed, before)) + ImageRefs(AfterImage(id, part, after))
    ensures forall b :: b in Names(ImageWrites(id, part, existed, before, after)) ==> b.id == id && b.part == part
  {
  }

  lemma {:induction false} PartNames(id: Id, n: nat, ps: seq<PartInput>)
    ensures Names(PartWrites(id, n, ps)) == PartsRefs(BeginParts(id, n, ps))
    ensures forall b :: b in Names(PartWrites(id, n, ps)) ==> b.id == id && b.part.Some?
    decreases |ps|
  {
    if ps != [] {
      var p := ps[0];
      ImageNames(id, Some(n), p.existedBefore, p.beforeSource, p.afterSource);
      PartNames(id, n + 1, ps[1..]);
      NamesConcat(ImageWrites(id, Some(n), p.existedBefore, p.beforeSource, p.afterSource), PartWrites(id, n + 1, ps[1..]));
      assert BeginParts(id, n, ps)[1..] == BeginParts(id, n + 1, ps[1..]);
    }
  }

  /** begin writes exactly the blobs its index line will name, all under its own id. */
  lemma BeginNamesItsBlobs(id: Id, ts: Timestamp, input: BeginInput, preceding: Option<Record>)
    requires preceding.Some? ==> IsEntry(preceding.value) && IsWrite(preceding.value.operation.value)
    ensures Refs(BeginRecord(id, ts, input, preceding)) == Names(BeginWrites(id, input))
    ensures forall b :: b in Names(BeginWrites(id, input)) ==> b.id == id
  {
    hide WriteTimeUndoability;
    ImageNames(id, None, input.existedBefore, input.beforeSource, input.afterSource);
    PartNames(id, 0, input.parts);
    NamesConcat(ImageWrites(id, None, input.existedBefore, input.beforeSource, input.afterSource), PartWrites(id, 0, input.parts));
  }

  // ----- settle --------------------------------------------------------------------------------------

  datatype CreatedFresh = CreatedFresh(status: int, location: string)

  datatype SettleInput = SettleInput(
    outcome: Outcome, error: Option<string>, afterSource: Option<string>,
    partsAfterSource: Option<map<int, string>>, createdFresh: Option<CreatedFresh>)

  /** A 201 with a Location upgrades the provenance of a create that had no evidence either way. */
  predicate ProvesAbsence(existing: Record, input: SettleInput)
    requires IsEntry(existing)
  {
    && input.createdFresh.Some?
    && input.outcome.Succeeded?
    && existing.operation.value.Create?
    && !ExistedBefore(existing)
    && !CaptureOf(existing).ConfirmedAbsent?
    && !CaptureOf(existing).Captured?
    && input.createdFresh.value.status == 201
    && !IsBlank(input.createdFresh.value.location)
  }

  /** The one refusal the new evidence can lift. */
  predicate RefusedForEvidence(existing: Record)
    requires IsEntry(existing)
  {
    && existing.undoable == Some(false)
    && existing.undoBlocker == Some(DeleteEvidence(existing.target.value.name, CaptureOf(existing)))
  }

  function Upgraded(existing: Record): Record {
    existing.(beforeCapture := Some(Known(ConfirmedAbsent)))
  }

  /** parts is patched whole, with the new after-images of the indices it has. */
  function SettledParts(id: Id, parts: seq<Part>, sources: map<int, string>): (r: seq<Part>)
    ensures |r| == |parts|
  {
    seq(|parts|, i requires 0 <= i < |parts| =>
      if i in sources then parts[i].(after := AfterImage(id, Some(i), Some(sources[i]))) else parts[i])
  }

  function PartsOf(existing: Record): seq<Part> {
    if existing.parts.Some? then existing.parts.value else []
  }

  function PartSources(input: SettleInput): map<int, string> {
    if input.partsAfterSource.Some? then input.partsAfterSource.value else map[]
  }

  function SettleRecord(existing: Record, input: SettleInput): (r: Record)
    requires IsEntry(existing)
    ensures r.id == existing.id && IsPatch(r)
  {
    var proves := ProvesAbsence(existing, input);
    var verdict := WriteTimeUndoability(Upgraded(existing), None, None);
    var lifts := proves && RefusedForEvidence(existing);
    Record(
      existing.id,
      outcome := Some(input.outcome),
      error := input.error,
      beforeCapture := if proves then Some(Known(ConfirmedAbsent)) else None,
      createEvidence := if proves then Some(input.createdFresh.value.location) else None,
      undoable := if lifts then Some(verdict.undoable) else None,
      undoBlocker := if lifts then Some(verdict.blocker) else None,
      after := AfterImage(existing.id, None, input.afterSource),
      parts := if input.partsAfterSource.None? then None
               else Some(SettledParts(existing.id, PartsOf(existing), input.partsAfterSource.value)))
  }

  /** Only a 201 with a Location, for a create that succeeded and had no provenance, proves absence afterwards. */
  lemma SettleUpgradesIff(existing: Record, input: SettleInput)
    requires IsEntry(existing)
    ensures var r := SettleRecord(existing, input);
            && (r.beforeCapture.Some? <==>
                  && input.createdFresh.Some? && input.createdFresh.value.status == 201 && !IsBlank(input.createdFresh.value.location)
                  && input.outcome == Succeeded && existing.operation == Some(Create) && existing.existedBefore != Some(true)
                  && existing.beforeCapture != Some(Known(ConfirmedAbsent)) && existing.beforeCapture != Some(Known(Captured)))
            && (r.beforeCapture.Some? ==>
                  r.beforeCapture == Some(Known(ConfirmedAbsent)) && r.createEvidence == Some(input.createdFresh.value.location))
            && (r.beforeCapture.None? ==> r.createEvidence.None? && r.undoable.None? && r.undoBlocker.None?)
  {
    hide WriteTimeUndoability;
  }

  /** The verdict is drawn up anew exactly if it was refused for that missing evidence and nothing else. */
  lemma SettleRejudgesIff(existing: Record, input: SettleInput)
    requires IsEntry(existing)
    ensures var r := SettleRecord(existing, input);
            && (r.undoable.Some? <==>
                  && r.beforeCapture.Some? && existing.undoable == Some(false)
                  && existing.undoBlocker == Some(DeleteEvidence(existing.target.value.name, CaptureOf(existing))))
            && (r.undoable.Some? ==>
                  (r.undoable == Some(true)
                   <==> WriteTimeUndoability(existing.(beforeCapture := Some(Known(ConfirmedAbsent))), None, None).undoable))
  {
    hide WriteTimeUndoability;
  }

  /** What settle reports besides: the outcome, the error and the new images; everything else of the entry stays. */
  lemma SettleSays(existing: Record, input: SettleInput)
    requires IsEntry(existing)
    ensures var m := Merge(existing, SettleRecord(existing, input));
            && m.outcome == Some(input.outcome)
            && m.error == (if input.error.Some? then input.error else existing.error)
            && m.after == (if input.afterSource.Some? then Some(Image(Some(BlobName(existing.id, None, After)))) else existing.after)
            && m.ts == existing.ts && m.operation == existing.operation && m.target == existing.target
            && m.systemKey == existing.systemKey && m.existedBefore == existing.existedBefore && m.before == existing.before
            && m.beforeKind == existing.beforeKind && m.irreversible == existing.irreversible && m.undoneBy == existing.undoneBy
            && m.reconciled == existing.reconciled && m.other == existing.other
            && (input.partsAfterSource.None? ==> m.parts == existing.parts)
  {
    hide WriteTimeUndoability, ProvesAbsence;
  }

  /** Of the parts, only after-images change, and only those with a new source. */
  lemma SettlePartsSay(existing: Record, input: SettleInput, i: nat)
    requires IsEntry(existing) && input.partsAfterSource.Some? && i < |PartsOf(existing)|
    ensures var was, now := PartsOf(existing), SettleRecord(existing, input).parts;
            && now.Some? && |now.value| == |was|
            && now.value[i] == was[i].(after := now.value[i].after)
            && now.value[i].after == if i in input.partsAfterSource.value then Some(Image(Some(BlobName(existing.id, Some(i), After)))) else was[i].after
  {
    hide WriteTimeUndoability, ProvesAbsence;
  }

  function SettlePartWrites(id: Id, n: nat, count: nat, sources: map<int, string>): seq<Write>
    decreases count - n
  {
    if n >= count then []
    else (if n in sources then [(BlobName(id, Some(n), After), sources[n])] else []) + SettlePartWrites(id, n + 1, count, sources)
  }

  function SettleWrites(existing: Record, input: SettleInput): seq<Write> {
    ImageWrites(existing.id, None, false, None, input.afterSource)
    + SettlePartWrites(existing.id, 0, |PartsOf(existing)|, PartSources(input))
  }

  lemma {:induction false} InPartsRefs(parts: seq<Part>, b: BlobName)
    ensures b in PartsRefs(parts) <==> exists i :: 0 <= i < |parts| && b in PartRefs(parts[i])
  {
    if parts != [] {
      InPartsRefs(parts[1..], b);
      assert forall i :: 0 < i < |parts| ==> parts[i] == parts[1..][i - 1];
      assert forall i :: 0 <= i < |parts| - 1 ==> parts[1..][i] == parts[i + 1];
    }
  }

  lemma {:induction false} InSettlePartWrites(id: Id, n: nat, count: nat, sources: map<int, string>)
    ensures forall b :: b in Names(SettlePartWrites(id, n, count, sources)) ==> b.id == id && b.which.After? && b.part.Some?
    ensures forall i :: n <= i < count && i in sources
              ==> BlobName(id, Some(i), After) in Names(SettlePartWrites(id, n, count, sources))
    decreases count - n
  {
    if n < count {
      InSettlePartWrites(id, n + 1, count, sources);
      var here := if n in sources then [(BlobName(id, Some(n), After), sources[n])] else [];
      NamesConcat(here, SettlePartWrites(id, n + 1, count, sources));
      if n in sources {
        assert here[0] in here;
      }
    }
  }

  /** A settle patch names what the entry named and what settle itself wrote, nothing else. */
  lemma SettleNamesItsBlobs(existing: Record, input: SettleInput)
    requires IsEntry(existing)
    ensures Refs(SettleRecord(existing, input)) <= Refs(existing) + Names(SettleWrites(existing, input))
    ensures forall b :: b in Names(SettleWrites(existing, input)) ==> b.id == existing.id && b.which.After?
  {
    hide WriteTimeUndoability, ProvesAbsence;
    var id, was := existing.id, PartsOf(existing);
    var r := SettleRecord(existing, input);
    ImageNames(id, None, false, None, input.afterSource);
    InSettlePartWrites(id, 0, |was|, PartSources(input));
    NamesConcat(ImageWrites(id, None, false, None, input.afterSource), SettlePartWrites(id, 0, |was|, PartSources(input)));
    if r.parts.Some? {
      forall b | b in PartsRefs(r.parts.value)
        ensures b in Refs(existing) + Names(SettleWrites(existing, input))
      {
        InPartsRefs(r.parts.value, b);
        var i :| 0 <= i < |r.parts.value| && b in PartRefs(r.parts.value[i]);
        InPartsRefs(was, b);
        if b !in PartRefs(was[i]) {
          assert b == BlobName(id, Some(i), After);
        }
      }
    }
  }

  // ----- reconcile and markUndone ----------------------------------------------------------------------

  function ReconcileRecord(id: Id, outcome: Outcome, why: Reconciliation): (r: Record)
    ensures r.id == id && IsPatch(r) && Refs(r) == {}
  {
    Record(id, outcome := Some(outcome), reconciled := Some(why), error := if outcome.Failed? then Some(why.reason) else None)
  }

  function UndoneRecord(id: Id, undoneBy: Id): (r: Record)
    ensures r.id == id && IsPatch(r) && Refs(r) == {}
  {
    Record(id, undoneBy := Some(undoneBy))
  }
}
