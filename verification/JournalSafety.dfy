/** Every run of the journal protocol: what the index yields has its images on disk. */
module JournalSafety {
  import opened Options
  import opened JournalLog
  import opened JournalWrites
  import opened Retention
  import opened JournalProtocol
  import opened JournalInvariant
  import opened JournalQuietSteps
  import opened JournalDiskSteps

  // ----- processes come and go ------------------------------------------------------------------------------------

  /** Calls may vanish, processes come, and a lock whose holder is gone may be freed. */
  ghost predicate Fades(s: State, s': State) {
    && s' == s.(alive := s'.alive, claims := s'.claims, tasks := s'.tasks, lock := s'.lock)
    && (forall t :: t in s'.tasks ==> t in s.tasks && s'.tasks[t] == s.tasks[t] && (s.tasks[t].pid in s.alive ==> s.tasks[t].pid in s'.alive))
    && (s'.lock == s.lock || forall t :: t in s.tasks ==> s.lock != Some(t))
  }

  lemma FadeTask(s: State, s': State, t: TaskId)
    requires Fades(s, s') && t in s'.tasks && t in s.tasks && TaskOk(s, t)
    ensures TaskOk(s', t)
  {
    hide Yield;
    StageStays(s, s', s.tasks[t].stage);
    hide StageOk;
  }

  lemma FadeStore(s: State, s': State)
    requires StoreOk(s) && Fades(s, s')
    ensures StoreOk(s')
  {
    hide Yield, Refs, OwnRefs, BeginWrites, Whole, IdsOf;
    forall id ensures ImagesOnDisk(s', id) {
      assert ImagesOnDisk(s, id);
    }
    forall b ensures BytesAsGiven(s', b) {
      assert BytesAsGiven(s, b);
    }
  }

  lemma FadeKeeps(s: State, s': State)
    requires Inv(s) && Fades(s, s')
    ensures Inv(s')
  {
    hide StoreOk, TaskOk;
    FadeStore(s, s');
    forall u | u in s'.tasks ensures TaskOk(s', u) {
      FadeTask(s, s', u);
    }
    forall t, u | t in s'.tasks && u in s'.tasks && t != u ensures Apart(s', t, u) {
      assert Apart(s, t, u);
    }
  }

  lemma ProcessesKeep(s: State, a: Action)
    requires Inv(s) && (a.Spawn? || a.Crash? || a.BreakLock?)
    ensures Inv(Step(s, a))
  {
    hide Inv;
    FadeKeeps(s, Step(s, a));
  }

  // ----- every run ---------------------------------------------------------------------------------------------------

  /** No marker write fails. */
  ghost predicate MarkersWork(actions: seq<Action>) {
    forall i :: 0 <= i < |actions| && actions[i].Publish? ==> actions[i].ok
  }

  lemma StepKeeps(s: State, a: Action)
    requires Inv(s) && (a.Publish? ==> a.ok)
    ensures Inv(Step(s, a))
  {
    hide Inv, AfterCrash, AfterPublish, AfterWrite, AfterDraft, AfterDraftSettle, AfterAbort, AfterAcquire, AfterAppend;
    hide AfterRelease, AfterUnclaim, AfterRetract, AfterDecide, AfterRename, AfterListBlobs, AfterListMarkers;
    hide AfterStat, AfterProbe, AfterReap, AfterRegistry, AfterUnlink, Sorted, Entries;
    match a
    case Spawn(_) => ProcessesKeep(s, a);
    case Crash(_) => ProcessesKeep(s, a);
    case BreakLock => ProcessesKeep(s, a);
    case StartBegin(t, pid, id, input) => StartBeginKeeps(s, t, pid, id, input);
    case StartSettle(_, _, _, _) => OtherStartsKeep(s, a);
    case StartNote(_, _, _, _) => OtherStartsKeep(s, a);
    case StartPrune(_, _) => OtherStartsKeep(s, a);
    case Publish(t, _) => PublishKeeps(s, t);
    case WriteBlob(t) => WriteBlobKeeps(s, t);
    case Draft(t, ts, preceding) => DraftKeeps(s, t, ts, preceding);
    case DraftSettle(t) => DraftSettleKeeps(s, t);
    case Abort(t) => AbortKeeps(s, t);
    case Acquire(t) => AcquireKeeps(s, t);
    case Append(t, ok) =>
      if ok {
        AppendKeeps(s, t);
      } else {
        FailedAppendKeeps(s, t);
      }
    case Release(t) => ReleaseKeeps(s, t);
    case Unclaim(t) => UnclaimKeeps(s, t);
    case Retract(t, ok) => RetractKeeps(s, t, ok);
    case Decide(t, ordered, cutoff, maxEntries) =>
      if Sorted(Entries(s.index), ordered) {
        DecideKeeps(s, t, ordered, cutoff, maxEntries);
      }
    case Rename(t) => RenameKeeps(s, t);
    case ListBlobs(t) => ListBlobsKeeps(s, t);
    case ListMarkers(t) => ListMarkersKeeps(s, t);
    case StatMarker(t, marker, aged) => StatKeeps(s, t, marker, aged);
    case ProbeMarker(t, marker) => ProbeKeeps(s, t, marker);
    case ReapMarker(t, marker, ok) => ReapKeeps(s, t, marker, ok);
    case EndRegistry(t) => RegistryKeeps(s, t);
    case Unlink(t, file) => UnlinkKeeps(s, t, file);
  }

  lemma {:induction false} RunKeeps(actions: seq<Action>)
    requires MarkersWork(actions)
    ensures Inv(Run(actions))
  {
    if actions == [] {
    } else {
      RunKeeps(actions[..|actions| - 1]);
      hide Inv, Step;
      StepKeeps(Run(actions[..|actions| - 1]), actions[|actions| - 1]);
    }
  }

  /**
    In every state any number of processes can reach, crashing or not, whatever the index yields
    has all its recorded images on disk, and its before-images hold the bytes begin was given.
   */
  lemma EveryEntryHasItsImages(actions: seq<Action>, id: Id)
    requires MarkersWork(actions) && id in Entries(Run(actions).index)
    ensures var s := Run(actions);
            forall b :: b in Refs(Entries(s.index)[id]) ==>
              && b.id == id && b in s.blobs && id in s.given
              && (b.which.Before? ==> (b, s.blobs[b]) in BeginWrites(id, s.given[id]))
  {
    hide Run, Refs, Yield, Entries;
    RunKeeps(actions);
    var s := Run(actions);
    EntriesYield(s.index, id);
    assert ImagesOnDisk(s, id);
    forall b | b in Refs(Entries(s.index)[id]) ensures BytesAsGiven(s, b) {
    }
  }

  /** The blobs a begin has written and means to name in its line. */
  function Pending(stage: Stage): set<BlobName> {
    match stage
    case Writing(id, input, done) => Written(BeginWrites(id, input), done)
    case Queued(record, begun) => if begun then Refs(record) else {}
    case Locked(record, begun) => if begun then Refs(record) else {}
    case _ => {}
  }

  /** Until its line has landed, no sweep takes or garbles what a begin has written. */
  lemma LiveWritesSurvive(actions: seq<Action>, t: TaskId)
    requires MarkersWork(actions) && t in Run(actions).tasks
    ensures var s := Run(actions);
            forall b :: b in Pending(s.tasks[t].stage) ==>
              && b in s.blobs && b.id in s.given
              && (b.which.Before? ==> (b, s.blobs[b]) in BeginWrites(b.id, s.given[b.id]))
  {
    hide Run, Refs, Written, BeginWrites;
    RunKeeps(actions);
    var s := Run(actions);
    assert TaskOk(s, t);
    forall b | b in Pending(s.tasks[t].stage) ensures BytesAsGiven(s, b) {
    }
  }
}
