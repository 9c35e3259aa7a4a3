/** Every run of the journal protocol: what can be undone is backed by what begin was given, however stale the patches. */
module JournalEvidence {
  import opened Options
  import opened JournalLog
  import opened Undoability
  import opened JournalWrites
  import opened Retention
  import opened JournalSoundness
  import opened JournalProtocol
  import opened JournalInvariant
  import opened JournalSafety

  // ----- patches, whatever entry they meet ----------------------------------------------------------------------

  /**
    A patch leaves what begin said alone. It states provenance only for what was created, and only
    then declares an entry undoable.
   */
  ghost predicate HonestPatch(r: Record, input: BeginInput) {
    && IsPatch(r)
    && r.operation.None? && r.target.None? && r.existedBefore.None? && r.before.None?
    && (r.beforeCapture.Some? ==>
          r.beforeCapture == Some(Known(ConfirmedAbsent)) && !input.operation.Delete? && !input.existedBefore)
    && (r.undoable == Some(true) ==> r.beforeCapture.Some?)
  }

  /** A settle drafted from an entry as it was at any earlier time. */
  lemma SettleIsHonest(existing: Record, settling: SettleInput, input: BeginInput)
    requires Faithful(existing, input)
    ensures HonestPatch(SettleRecord(existing, settling), input)
  {
    hide WriteTimeUndoability;
  }

  lemma NoteIsHonest(id: Id, note: Note, input: BeginInput)
    ensures HonestPatch(NoteRecord(id, note), input)
  {
  }

  /** An honest patch meets the entry as it is now, not the one it was drafted from. */
  lemma PatchedStaysFaithful(e: Record, r: Record, input: BeginInput)
    requires Faithful(e, input) && HonestPatch(r, input) && r.id == e.id
    ensures Faithful(Normalise(Merge(e, r)), input)
  {
  }

  // ----- the invariant --------------------------------------------------------------------------------------------

  ghost predicate IndexFaithful(s: State) {
    forall id :: Yield(s.index, id).Some? ==> id in s.given && Faithful(Yield(s.index, id).value, s.given[id])
  }

  ghost predicate RecordFaithful(given: map<Id, BeginInput>, r: Record, begun: bool) {
    r.id in given && if begun then Faithful(Normalise(r), given[r.id]) else HonestPatch(r, given[r.id])
  }

  /** What a call carries towards the index. */
  ghost predicate StageFaithful(given: map<Id, BeginInput>, stage: Stage) {
    match stage
    case Settling(existing, _, _) => existing.id in given && Faithful(existing, given[existing.id])
    case Queued(record, begun) => RecordFaithful(given, record, begun)
    case Locked(record, begun) => RecordFaithful(given, record, begun)
    case _ => true
  }

  ghost predicate Honest(s: State) {
    IndexFaithful(s) && forall t :: t in s.tasks ==> StageFaithful(s.given, s.tasks[t].stage)
  }

  ghost predicate GivenGrows(s: State, s': State) {
    forall id :: id in s.given ==> id in s'.given && s'.given[id] == s.given[id]
  }

  /** Every call stays where it was or carries something faithful. */
  ghost predicate TasksFaithful(s: State, s': State) {
    forall u :: u in s'.tasks ==>
      StageFaithful(s'.given, s'.tasks[u].stage) || (u in s.tasks && s'.tasks[u].stage == s.tasks[u].stage)
  }

  lemma StageGrows(s: State, s': State, stage: Stage)
    requires GivenGrows(s, s') && StageFaithful(s.given, stage)
    ensures StageFaithful(s'.given, stage)
  {
    hide Faithful, HonestPatch;
  }

  lemma IndexStands(s: State, s': State)
    requires Honest(s) && GivenGrows(s, s') && TasksFaithful(s, s')
    requires IndexFaithful(s) ==> IndexFaithful(s')
    ensures Honest(s')
  {
    hide IndexFaithful, StageFaithful, GivenGrows;
    forall u | u in s'.tasks ensures StageFaithful(s'.given, s'.tasks[u].stage) {
      if u in s.tasks {
        StageGrows(s, s', s.tasks[u].stage);
      }
    }
  }

  lemma IndexGrows(s: State, s': State)
    requires IndexFaithful(s) && GivenGrows(s, s') && s'.index == s.index
    ensures IndexFaithful(s')
  {
    hide Yield, Faithful;
  }

  lemma SameIndex(s: State, s': State)
    requires Honest(s) && GivenGrows(s, s') && TasksFaithful(s, s') && s'.index == s.index
    ensures Honest(s')
  {
    hide IndexFaithful, GivenGrows, TasksFaithful;
    assert IndexFaithful(s);
    IndexGrows(s, s');
    IndexStands(s, s');
  }

  // ----- the steps ------------------------------------------------------------------------------------------------

  /** A call that carries nothing new towards the index. */
  predicate Harmless(was: Option<Stage>, now: Stage) {
    || was == Some(now)
    || (now.Locked? && was == Some(Queued(now.record, now.begun)))
    || (now.Settling? && was.Some? && was.value.Settling? && was.value.existing == now.existing)
    || !(now.Settling? || now.Queued? || now.Locked?)
  }

  ghost predicate Idle(s: State, s': State) {
    && s'.index == s.index && GivenGrows(s, s')
    && forall u :: u in s'.tasks ==> Harmless(StageOf(s, u), s'.tasks[u].stage)
  }

  lemma OneMoves(s: State, s': State, t: TaskId)
    requires s'.index == s.index && s'.given == s.given
    requires forall u :: u in s'.tasks && u != t ==> u in s.tasks && s'.tasks[u] == s.tasks[u]
    requires t in s'.tasks ==> Harmless(StageOf(s, t), s'.tasks[t].stage)
    ensures Idle(s, s')
  {
  }

  lemma IdleKeeps(s: State, s': State)
    requires Honest(s) && Idle(s, s')
    ensures Honest(s')
  {
    hide IndexFaithful, RecordFaithful, Faithful, GivenGrows;
    forall u | u in s'.tasks && u in s.tasks ensures StageFaithful(s'.given, s.tasks[u].stage) {
      StageGrows(s, s', s.tasks[u].stage);
    }
    hide StageFaithful;
    forall u | u in s'.tasks
      ensures StageFaithful(s'.given, s'.tasks[u].stage) || (u in s.tasks && s'.tasks[u].stage == s.tasks[u].stage)
    {
      IdleStage(s, s', u);
    }
    SameIndex(s, s');
  }

  lemma IdleStage(s: State, s': State, u: TaskId)
    requires Idle(s, s') && u in s'.tasks && (u in s.tasks ==> StageFaithful(s'.given, s.tasks[u].stage))
    ensures StageFaithful(s'.given, s'.tasks[u].stage)
  {
    hide RecordFaithful, Faithful, GivenGrows;
  }

  lemma ProcessesIdle(s: State, a: Action)
    requires a.Spawn? || a.Crash? || a.BreakLock? || a.StartBegin? || a.StartPrune?
    ensures Idle(s, Step(s, a))
  {
  }

  lemma WritesIdle(s: State, a: Action)
    requires a.Publish? || a.WriteBlob? || a.Abort?
    ensures Idle(s, Step(s, a))
  {
    hide Idle, GivenGrows, BeginWrites, SettleWrites;
    OneMoves(s, Step(s, a), a.t);
  }

  lemma LockIdle(s: State, a: Action)
    requires a.Acquire? || a.Release? || a.Unclaim? || a.Retract?
    ensures Idle(s, Step(s, a))
  {
    hide Idle, GivenGrows;
    OneMoves(s, Step(s, a), a.t);
  }

  lemma PruneIdle(s: State, a: Action)
    requires a.Decide? || a.ListBlobs? || a.ListMarkers?
    ensures Idle(s, Step(s, a))
  {
    hide Idle, GivenGrows, Kept, Dropped, KeptIds, Sorted, Entries, ClaimedBy;
    OneMoves(s, Step(s, a), a.t);
  }

  lemma RegistryIdle(s: State, a: Action)
    requires a.StatMarker? || a.ProbeMarker? || a.ReapMarker?
    ensures Idle(s, Step(s, a))
  {
    hide Idle, GivenGrows;
    OneMoves(s, Step(s, a), a.t);
  }

  lemma SweepIdle(s: State, a: Action)
    requires a.EndRegistry? || a.Unlink?
    ensures Idle(s, Step(s, a))
  {
    hide Idle, GivenGrows, Sweepable;
    OneMoves(s, Step(s, a), a.t);
  }

  lemma StartsKeep(s: State, a: Action)
    requires Honest(s) && (a.StartSettle? || a.StartNote?)
    ensures Honest(Step(s, a))
  {
    hide Faithful, HonestPatch, NoteRecord, Yield;
    if Step(s, a) != s {
      YieldHasId(s.index, a.id);
      if a.StartNote? {
        NoteIsHonest(a.id, a.note, s.given[a.id]);
      }
      SameIndex(s, Step(s, a));
    }
  }

  lemma DraftsKeep(s: State, a: Action)
    requires Inv(s) && Honest(s) && (a.Draft? || a.DraftSettle?)
    ensures Honest(Step(s, a))
  {
    hide Faithful, HonestPatch, BeginRecord, SettleRecord, BeginWrites, SettleWrites, Yield, IndexFaithful, StoreOk, RegistryOk, Apart;
    if Step(s, a) != s {
      assert TaskOk(s, a.t);
      hide TaskOk, Inv;
      if a.Draft? {
        var Writing(id, input, _) := s.tasks[a.t].stage;
        FreshFaithful(id, a.ts, input, a.preceding);
      } else {
        var Settling(existing, settling, _) := s.tasks[a.t].stage;
        SettleIsHonest(existing, settling, s.given[existing.id]);
      }
      SameIndex(s, Step(s, a));
    }
  }

  lemma AppendFaithful(s: State, r: Record, begun: bool, id: Id)
    requires StoreOk(s) && IndexFaithful(s) && RecordFaithful(s.given, r, begun) && (begun ==> r.id !in s.landed)
    ensures var y := Yield(s.index + [Rec(r)], id); y.Some? ==> id in s.given && Faithful(y.value, s.given[id])
  {
    hide Whole, Yield, Merge, Normalise, BytesAsGiven, ImagesOnDisk, Faithful;
    YieldSnoc(s.index, r, id);
    if id == r.id {
      if begun {
        FaithfulEntry(r, s.given[id]);
      } else if Yield(s.index, id).Some? {
        YieldHasId(s.index, id);
        PatchedStaysFaithful(Yield(s.index, id).value, r, s.given[id]);
      } else {
        OrphanStays(s, r);
      }
    }
  }

  lemma FaithfulEntry(r: Record, input: BeginInput)
    requires Faithful(Normalise(r), input)
    ensures IsEntry(r)
  {
  }

  lemma OrphanStays(s: State, r: Record)
    requires StoreOk(s) && IsPatch(r) && Yield(s.index, r.id).None?
    ensures Yield(s.index + [Rec(r)], r.id).None?
  {
    hide Merge, ImagesOnDisk, BytesAsGiven;
    YieldSnoc(s.index, r, r.id);
  }

  lemma AppendsKeep(s: State, t: TaskId, ok: bool)
    requires Inv(s) && Honest(s)
    ensures Honest(AfterAppend(s, t, ok))
  {
    hide Faithful, HonestPatch, Yield, StoreOk, RegistryOk, Apart, IndexFaithful;
    var s' := AfterAppend(s, t, ok);
    if s' != s {
      assert TaskOk(s, t);
      var Locked(r, begun) := s.tasks[t].stage;
      hide TaskOk, Inv;
      forall id | Yield(s'.index, id).Some? ensures id in s'.given && Faithful(Yield(s'.index, id).value, s'.given[id]) {
        if ok {
          AppendFaithful(s, r, begun, id);
        } else {
          IndexFaithfulAt(s, id);
        }
      }
      IndexFaithfulIs(s');
      IndexStands(s, s');
    }
  }

  lemma IndexFaithfulAt(s: State, id: Id)
    requires IndexFaithful(s) && Yield(s.index, id).Some?
    ensures id in s.given && Faithful(Yield(s.index, id).value, s.given[id])
  {
  }

  lemma IndexFaithfulIs(s: State)
    requires forall id :: Yield(s.index, id).Some? ==> id in s.given && Faithful(Yield(s.index, id).value, s.given[id])
    ensures IndexFaithful(s)
  {
  }

  lemma RenamesKeep(s: State, t: TaskId)
    requires Inv(s) && Honest(s)
    ensures Honest(AfterRename(s, t))
  {
    hide Faithful, HonestPatch, Yield, StoreOk, RegistryOk, Apart, Selection, Rewritten, KeptIds;
    var s' := AfterRename(s, t);
    if s' != s {
      assert TaskOk(s, t);
      var keep := s.tasks[t].stage.keep;
      hide TaskOk, Inv;
      forall id | Yield(s'.index, id).Some? ensures id in s'.given && Faithful(Yield(s'.index, id).value, s'.given[id]) {
        RewrittenYields(s.index, keep, id);
      }
      IndexStands(s, s');
    }
  }

  lemma StepStaysHonest(s: State, a: Action)
    requires Inv(s) && Honest(s)
    ensures Honest(Step(s, a))
  {
    hide Honest, Inv, Idle, AfterDraft, AfterDraftSettle, AfterAppend, AfterRename, Sorted, Entries;
    match a
    case StartSettle(_, _, _, _) => StartsKeep(s, a);
    case StartNote(_, _, _, _) => StartsKeep(s, a);
    case Draft(_, _, _) => DraftsKeep(s, a);
    case DraftSettle(_) => DraftsKeep(s, a);
    case Append(t, ok) => AppendsKeep(s, t, ok);
    case Rename(t) => RenamesKeep(s, t);
    case Spawn(_) | Crash(_) | BreakLock | StartBegin(_, _, _, _) | StartPrune(_, _) =>
      ProcessesIdle(s, a);
      IdleKeeps(s, Step(s, a));
    case Publish(_, _) | WriteBlob(_) | Abort(_) =>
      WritesIdle(s, a);
      IdleKeeps(s, Step(s, a));
    case Acquire(_) | Release(_) | Unclaim(_) | Retract(_, _) =>
      LockIdle(s, a);
      IdleKeeps(s, Step(s, a));
    case Decide(_, _, _, _) | ListBlobs(_) | ListMarkers(_) =>
      PruneIdle(s, a);
      IdleKeeps(s, Step(s, a));
    case StatMarker(_, _, _) | ProbeMarker(_, _) | ReapMarker(_, _, _) =>
      RegistryIdle(s, a);
      IdleKeeps(s, Step(s, a));
    case EndRegistry(_) | Unlink(_, _) =>
      SweepIdle(s, a);
      IdleKeeps(s, Step(s, a));
  }

  // ----- every run --------------------------------------------------------------------------------------------------

  lemma {:induction false} RunStaysHonest(actions: seq<Action>)
    requires MarkersWork(actions)
    ensures Honest(Run(actions))
  {
    if actions == [] {
    } else {
      var before := actions[..|actions| - 1];
      RunStaysHonest(before);
      RunKeeps(before);
      hide Honest, Inv, Step;
      StepStaysHonest(Run(before), actions[|actions| - 1]);
    }
  }

  /** The only bytes begin writes under the before-blob's name are the ones it was given. */
  lemma OneBefore(id: Id, input: BeginInput, text: string)
    requires (BeforeBlob(id), text) in BeginWrites(id, input)
    ensures input.beforeSource == Some(text)
  {
    PartNames(id, 0, input.parts);
    hide PartWrites;
    forall w | w in PartWrites(id, 0, input.parts) ensures w.0.part.Some? {
      assert w.0 in Names(PartWrites(id, 0, input.parts));
    }
  }

  /**
    In every state any number of processes can reach, an entry declared undoable either deletes on
    positive evidence of absence, or has the very bytes begin was given on disk to write back.
   */
  lemma UndoableStaysBacked(actions: seq<Action>, id: Id)
    requires MarkersWork(actions) && id in Entries(Run(actions).index)
    ensures var s := Run(actions); var e := Entries(s.index)[id];
            && id in s.given && IsEntry(e) && e.operation == Some(s.given[id].operation) && e.target == Some(s.given[id].target)
            && (Ordinary(e) && e.undoable == Some(true) ==> CanBeUndone(e, s.blobs, s.given[id]))
  {
    hide Run, Refs, Yield, Entries, BeginWrites;
    RunStaysHonest(actions);
    var s := Run(actions);
    EntriesYield(s.index, id);
    var e := Entries(s.index)[id];
    assert Faithful(e, s.given[id]);
    if Ordinary(e) && e.undoable == Some(true) && e.before.Some? && e.before.value.blob.Some? {
      EveryEntryHasItsImages(actions, id);
      NamesBefore(e, BeforeBlob(id));
      OneBefore(id, s.given[id], s.blobs[BeforeBlob(id)]);
    }
  }

  lemma NamesBefore(e: Record, b: BlobName)
    requires e.before == Some(Image(Some(b)))
    ensures b in Refs(e)
  {
  }
}
