/**
  The static undo policy of src/undoability.ts: decided from an entry, a caller's blocker and,
  for an activation, the preceding write.
 */
module Undoability {
  import opened Options
  import opened JournalLog

  const ENHANCEMENT_TYPES: set<string> := {"ENHO/XH", "ENHO/XHH", "ENHS/XS"}
  const TEXT_POOL_RESOURCE_TYPES: set<string> := {"PROG/PX", "CLAS/OCX", "FUGR/PX"}

  predicate ExistedBefore(e: Record) {
    e.existedBefore == Some(true)
  }

  function CaptureOf(e: Record): Capture {
    NormaliseCapture(e.beforeCapture)
  }

  predicate HasBeforeBlob(e: Record) {
    e.before.Some? && e.before.value.blob.Some?
  }

  function PlannedActionOf(e: Record): PlannedAction
    requires IsEntry(e)
  {
    if e.operation.value.Delete? then PlanRecreate
    else if !ExistedBefore(e) then PlanDelete
    else PlanRestore
  }

  datatype Verdict = Verdict(undoable: bool, blocker: Blocker)

  const Undoable := Verdict(true, NoBlocker)

  function Blocked(why: Blocker): Verdict {
    Verdict(false, why)
  }

  /** Rules 4 to 12, which look at the entry alone. First matching rule wins. */
  function EntryVerdict(e: Record): Verdict
    requires IsEntry(e)
  {
    var op, kind, name := e.operation.value, e.target.value.kind, e.target.value.name;
    if e.irreversible == Some(true) then Blocked(IrreversibleText)
    else if kind in ENHANCEMENT_TYPES then
      if op.Create? then
        if !ExistedBefore(e) && CaptureOf(e).ConfirmedAbsent? then Undoable
        else Blocked(DeleteEvidence(name, CaptureOf(e)))
      else if op.Update? && e.beforeKind == Some(EnhImplActive) && CaptureOf(e).Captured? then Undoable
      else Blocked(EnhancementText(op))
    else if kind == "BOBF" then
      if op.Update? && e.beforeKind == Some(BopfModel) && CaptureOf(e).Captured? then Undoable
      else Blocked(BopfText(op))
    else if kind in TEXT_POOL_RESOURCE_TYPES then
      if e.beforeKind == Some(TextPool) && CaptureOf(e).Captured? then Undoable
      else Blocked(TextPoolText)
    else if op.Delete? && kind == "DEVC/K" then Blocked(PackageRecreate(name))
    else if e.target.value.subInclude && kind == "CLAS/OC" && PlannedActionOf(e) != PlanRestore then
      Blocked(ClassInclude(name, PlannedActionOf(e)))
    else if !op.Delete? && !ExistedBefore(e) && !CaptureOf(e).ConfirmedAbsent? then
      Blocked(DeleteEvidence(name, CaptureOf(e)))
    else if (ExistedBefore(e) || op.Delete?) && (!CaptureOf(e).Captured? || !HasBeforeBlob(e)) then
      Blocked(NoBeforeImage(name, CaptureOf(e)))
    else Undoable
  }

  /** Rule 2: transports and service bindings have nothing to write back. */
  function RuntimeBlocker(op: Operation): Option<Blocker> {
    match op
    case TransportRelease => Some(TransportReleaseText)
    case ServicePublish => Some(ServicePublishText)
    case ServiceUnpublish => Some(ServiceUnpublishText)
    case TransportOther(_) => Some(TransportText)
    case _ => None
  }

  predicate IsWrite(op: Operation) {
    op.Create? || op.Update? || op.Delete?
  }

  /** The whole policy. The preceding write matters to an activation only. */
  function WriteTimeUndoability(e: Record, callerBlocker: Option<string>, preceding: Option<Record>): Verdict
    requires IsEntry(e)
    requires preceding.Some? ==> IsEntry(preceding.value) && IsWrite(preceding.value.operation.value)
  {
    if callerBlocker.Some? && callerBlocker.value != "" then Blocked(CallerText(callerBlocker.value))
    else if RuntimeBlocker(e.operation.value).Some? then Blocked(RuntimeBlocker(e.operation.value).value)
    else if e.operation.value.Activate? then
      if preceding.None? then Blocked(NoEarlierWrite(e.target.value))
      else
        var pw := preceding.value;
        if pw.undoneBy.Some? then Blocked(AlreadyUndone(pw.id, pw.undoneBy.value))
        else
          var inner := if pw.undoable == Some(false) then Blocked(pw.undoBlocker.Else(Some(NoBlocker)).value) else EntryVerdict(pw);
          if inner.undoable then Undoable else Blocked(PrecedingBlocked(pw.id, inner.blocker))
    else EntryVerdict(e)
  }

  // ----- what an undoable entry promises ----------------------------------------------------------

  /** Entries the plain restore and delete path of undo handles. */
  predicate Ordinary(e: Record)
    requires IsEntry(e)
  {
    var kind := e.target.value.kind;
    !e.operation.value.Activate? && kind !in ENHANCEMENT_TYPES && kind != "BOBF" && kind !in TEXT_POOL_RESOURCE_TYPES
  }

  /**
    What undo needs to act on an ordinary entry: positive evidence of absence before it deletes,
    captured bytes before it writes back.
   */
  predicate Backed(e: Record)
    requires IsEntry(e)
  {
    match PlannedActionOf(e)
    case PlanDelete => CaptureOf(e).ConfirmedAbsent?
    case _ => CaptureOf(e).Captured? && HasBeforeBlob(e)
  }

  lemma UndoableIsBacked(e: Record, callerBlocker: Option<string>, preceding: Option<Record>)
    requires IsEntry(e) && Ordinary(e)
    requires preceding.Some? ==> IsEntry(preceding.value) && IsWrite(preceding.value.operation.value)
    requires WriteTimeUndoability(e, callerBlocker, preceding).undoable
    ensures Backed(e) && !e.irreversible.Else(Some(false)).value
  {
  }

  /** A caller can only narrow, and a refusal always says why. */
  lemma CallerOnlyNarrows(e: Record, callerBlocker: Option<string>, preceding: Option<Record>)
    requires IsEntry(e)
    requires preceding.Some? ==> IsEntry(preceding.value) && IsWrite(preceding.value.operation.value)
    ensures WriteTimeUndoability(e, callerBlocker, preceding).undoable ==> WriteTimeUndoability(e, None, preceding).undoable
    ensures WriteTimeUndoability(e, callerBlocker, preceding).undoable <==>
            WriteTimeUndoability(e, callerBlocker, preceding).blocker.NoBlocker?
  {
  }

  // ----- exactly what is undoable ------------------------------------------------------------------

  predicate RecordedAs(e: Record, capture: Capture) {
    e.beforeCapture == Some(Known(capture))
  }

  /** A write whose undo deletes: the object was not there before and was not deleted. */
  predicate UndoneByDelete(e: Record)
    requires IsEntry(e)
  {
    !e.operation.value.Delete? && e.existedBefore != Some(true)
  }

  /**
    An ordinary write is undoable if and only if it is not irreversible, is no package delete, needs
    no verb that class sub-includes lack, and has the evidence its undo acts on: confirmed absence to
    delete, captured bytes in a blob to write back.
   */
  lemma OrdinaryUndoableIff(e: Record, preceding: Option<Record>)
    requires IsEntry(e) && IsWrite(e.operation.value)
    requires e.target.value.kind !in {"ENHO/XH", "ENHO/XHH", "ENHS/XS", "BOBF", "PROG/PX", "CLAS/OCX", "FUGR/PX"}
    requires preceding.Some? ==> IsEntry(preceding.value) && IsWrite(preceding.value.operation.value)
    ensures Ordinary(e)
    ensures WriteTimeUndoability(e, None, preceding).undoable <==>
              && e.irreversible != Some(true)
              && !(e.operation == Some(Delete) && e.target.value.kind == "DEVC/K")
              && !(e.target.value.kind == "CLAS/OC" && e.target.value.subInclude && (e.operation == Some(Delete) || e.existedBefore != Some(true)))
              && if UndoneByDelete(e) then RecordedAs(e, ConfirmedAbsent) else RecordedAs(e, Captured) && e.before.Some? && e.before.value.blob.Some?
  {
  }

  /** An enhancement: created on proven absence, or its active state changed from a captured one. */
  lemma EnhancementUndoableIff(e: Record, preceding: Option<Record>)
    requires IsEntry(e) && IsWrite(e.operation.value) && e.target.value.kind in {"ENHO/XH", "ENHO/XHH", "ENHS/XS"}
    requires preceding.Some? ==> IsEntry(preceding.value) && IsWrite(preceding.value.operation.value)
    ensures WriteTimeUndoability(e, None, preceding).undoable <==>
              && e.irreversible != Some(true)
              && ((e.operation == Some(Create) && e.existedBefore != Some(true) && RecordedAs(e, ConfirmedAbsent))
                  || (e.operation == Some(Update) && e.beforeKind == Some(EnhImplActive) && RecordedAs(e, Captured)))
  {
  }

  /** A business object: only an update whose previous model was captured. */
  lemma BopfUndoableIff(e: Record, preceding: Option<Record>)
    requires IsEntry(e) && IsWrite(e.operation.value) && e.target.value.kind == "BOBF"
    requires preceding.Some? ==> IsEntry(preceding.value) && IsWrite(preceding.value.operation.value)
    ensures WriteTimeUndoability(e, None, preceding).undoable <==>
              e.irreversible != Some(true) && e.operation == Some(Update) && e.beforeKind == Some(BopfModel) && RecordedAs(e, Captured)
  {
  }

  /** A text pool: whatever the write, only if the previous pool was captured. */
  lemma TextPoolUndoableIff(e: Record, preceding: Option<Record>)
    requires IsEntry(e) && IsWrite(e.operation.value) && e.target.value.kind in {"PROG/PX", "CLAS/OCX", "FUGR/PX"}
    requires preceding.Some? ==> IsEntry(preceding.value) && IsWrite(preceding.value.operation.value)
    ensures WriteTimeUndoability(e, None, preceding).undoable <==>
              e.irreversible != Some(true) && e.beforeKind == Some(TextPool) && RecordedAs(e, Captured)
  {
  }

  /** An activation: exactly if there is a preceding write, not undone, not recorded as refused, and undoable by itself. */
  lemma ActivationUndoableIff(e: Record, preceding: Option<Record>)
    requires IsEntry(e) && e.operation == Some(Activate)
    requires preceding.Some? ==> IsEntry(preceding.value) && IsWrite(preceding.value.operation.value)
    ensures WriteTimeUndoability(e, None, preceding).undoable <==>
              && preceding.Some? && preceding.value.undoneBy.None? && preceding.value.undoable != Some(false)
              && WriteTimeUndoability(preceding.value, None, None).undoable
  {
  }

  /** Transports and service bindings never are, nor is anything a caller blocks; any other caller changes nothing. */
  lemma NeverUndoable(e: Record, callerBlocker: Option<string>, preceding: Option<Record>)
    requires IsEntry(e)
    requires preceding.Some? ==> IsEntry(preceding.value) && IsWrite(preceding.value.operation.value)
    ensures !IsWrite(e.operation.value) && !e.operation.value.Activate? ==> !WriteTimeUndoability(e, callerBlocker, preceding).undoable
    ensures callerBlocker.Some? && callerBlocker.value != "" ==>
              WriteTimeUndoability(e, callerBlocker, preceding) == Verdict(false, CallerText(callerBlocker.value))
    ensures callerBlocker == None || callerBlocker == Some("") ==>
              WriteTimeUndoability(e, callerBlocker, preceding) == WriteTimeUndoability(e, None, preceding)
  {
  }

  // ----- the preceding write ------------------------------------------------------------------------

  predicate SameObject(upper: string -> string, e: Record, activate: Record)
    requires IsEntry(e) && IsEntry(activate)
  {
    && upper(e.target.value.kind) == upper(activate.target.value.kind)
    && upper(e.target.value.name) == upper(activate.target.value.name)
    && (e.systemKey.Some? && activate.systemKey.Some? ==> e.systemKey == activate.systemKey)
  }

  /** e can stand behind the activation: an earlier successful write of the same object. */
  predicate Candidate(upper: string -> string, entries: seq<Record>, activate: Record, i: nat, at: nat)
    requires i < |entries| && IsEntry(entries[i]) && IsEntry(activate)
  {
    var e := entries[i];
    && e.id != activate.id
    && upper(e.target.value.kind) == upper(activate.target.value.kind) && upper(e.target.value.name) == upper(activate.target.value.name)
    && !(e.systemKey.Some? && activate.systemKey.Some? && e.systemKey != activate.systemKey)
    && (e.operation == Some(Create) || e.operation == Some(Update) || e.operation == Some(Delete))
    && e.outcome.value.Succeeded?
    && (e.ts.value.text < activate.ts.value.text || (e.ts.value.text == activate.ts.value.text && i < at))
  }

  /** The activation's own position, past the end when it is not in the list. */
  function PositionOf(entries: seq<Record>, id: Id): (at: nat)
    ensures at <= |entries| && (at < |entries| ==> entries[at].id == id)
    ensures forall i :: 0 <= i < at ==> entries[i].id != id
  {
    if entries == [] || entries[0].id == id then 0 else 1 + PositionOf(entries[1..], id)
  }

  /** (ts, position) order. */
  predicate LaterThan(entries: seq<Record>, i: nat, j: nat)
    requires i < |entries| && j < |entries| && IsEntry(entries[i]) && IsEntry(entries[j])
  {
    entries[i].ts.value.text > entries[j].ts.value.text
    || (entries[i].ts.value.text == entries[j].ts.value.text && i > j)
  }

  /** The latest candidate, by timestamp and then by position; nothing if there is no candidate. */
  method PrecedingWriteEntry(upper: string -> string, entries: seq<Record>, activate: Record)
    returns (best: Option<Record>, bestIndex: int)
    requires IsEntry(activate) && forall i :: 0 <= i < |entries| ==> IsEntry(entries[i])
    ensures var at := PositionOf(entries, activate.id);
            && (best.None? ==> forall i :: 0 <= i < |entries| ==> !Candidate(upper, entries, activate, i, at))
            && (best.Some? ==>
                  && 0 <= bestIndex < |entries| && best.value == entries[bestIndex]
                  && Candidate(upper, entries, activate, bestIndex, at)
                  && forall i :: 0 <= i < |entries| && i != bestIndex && Candidate(upper, entries, activate, i, at)
                                 ==> LaterThan(entries, bestIndex, i))
    ensures best.Some? ==> IsEntry(best.value) && IsWrite(best.value.operation.value)
  {
    var at := PositionOf(entries, activate.id);
    best := None;
    bestIndex := -1;
    for i := 0 to |entries|
      invariant best.None? ==> bestIndex == -1 && forall k :: 0 <= k < i ==> !Candidate(upper, entries, activate, k, at)
      invariant best.Some? ==>
        && 0 <= bestIndex < i && best.value == entries[bestIndex]
        && Candidate(upper, entries, activate, bestIndex, at)
        && forall k :: 0 <= k < i && k != bestIndex && Candidate(upper, entries, activate, k, at)
                       ==> LaterThan(entries, bestIndex, k)
    {
      var e := entries[i];
      if e.id == activate.id || !SameObject(upper, e, activate) || !IsWrite(e.operation.value) || !e.outcome.value.Succeeded? {
        continue;
      }
      var earlier := e.ts.value.text < activate.ts.value.text || (e.ts.value.text == activate.ts.value.text && i < at);
      if !earlier {
        continue;
      }
      var better := best.None? || e.ts.value.text > best.value.ts.value.text
                    || (e.ts.value.text == best.value.ts.value.text && i > bestIndex);
      if better {
        best := Some(e);
        bestIndex := i;
      }
    }
  }
}
