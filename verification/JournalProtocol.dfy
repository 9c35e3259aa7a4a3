/**
  The write journal of src/journal.ts as processes see each other: every operation of begin, settle,
  reconcile, markUndone and prune on a file that others can see is one step, steps of any number of
  calls in any number of processes interleave, and processes may crash between any two steps. The
  new index is written to a file of its own before it is renamed, so only the rename is a step. The
  index lock is taken to exclude, a pid of a live process to test alive, and an id to be minted once.
 */
module JournalProtocol {
  import opened Options
  import opened Sequences
  import opened JournalLog
  import opened Undoability
  import opened JournalWrites
  import opened Retention
  import opened JournalSoundness

  type Pid = nat
  type TaskId = nat

  /** `<id>.<pid>`, as a file of the in-flight registry and as a process's own claim. */
  datatype Marker = Marker(id: Id, pid: Pid)

  /** Where a call stands. `begun` records are begin's own, the others are patches. */
  datatype Stage =
    | Claimed(id: Id, input: BeginInput)
    | Writing(id: Id, input: BeginInput, done: nat)
    | Settling(existing: Record, settling: SettleInput, done: nat)
    | Queued(record: Record, begun: bool)
    | Locked(record: Record, begun: bool)
    | Leaving(id: Id, begun: bool)
    | Closing(id: Id)
    | Retracting(id: Id)
    | PruneQueued
    | PruneRead
    | PruneKept(keep: seq<Record>)
    | SweepStart(surviving: set<Id>)
    | SweepListed(surviving: set<Id>, files: set<BlobName>)
    | SweepRegistry(surviving: set<Id>, files: set<BlobName>, unread: set<Marker>, suspects: set<Marker>, doomed: set<Marker>, registered: set<Id>)
    | Sweeping(surviving: set<Id>, files: set<BlobName>, registered: set<Id>)

  datatype Task = Task(pid: Pid, stage: Stage)

  /**
    The disk (index, blobs, markers, lock) and the processes (alive, claims, tasks). `given` and
    `landed` remember what begin was ever given and whose begin lines ever reached the index.
   */
  datatype State = State(
    index: seq<Line>, blobs: map<BlobName, string>, markers: set<Marker>, lock: Option<TaskId>,
    alive: set<Pid>, claims: set<Marker>, tasks: map<TaskId, Task>,
    given: map<Id, BeginInput>, landed: set<Id>)

  const INIT := State([], map[], {}, None, {}, {}, map[], map[], {})

  datatype Note = Reconciling(outcome: Outcome, why: Reconciliation) | MarkingUndone(undoneBy: Id)

  function NoteRecord(id: Id, note: Note): (r: Record)
    ensures r.id == id && IsPatch(r) && Refs(r) == {}
  {
    match note
    case Reconciling(outcome, why) => ReconcileRecord(id, outcome, why)
    case MarkingUndone(undoneBy) => UndoneRecord(id, undoneBy)
  }

  datatype Action =
    | Spawn(pid: Pid)
    | Crash(pid: Pid)
    | BreakLock
    | StartBegin(t: TaskId, pid: Pid, id: Id, input: BeginInput)
    | Publish(t: TaskId, ok: bool)
    | WriteBlob(t: TaskId)
    | Draft(t: TaskId, ts: Timestamp, preceding: Option<Record>)
    | StartSettle(t: TaskId, pid: Pid, id: Id, settling: SettleInput)
    | DraftSettle(t: TaskId)
    | StartNote(t: TaskId, pid: Pid, id: Id, note: Note)
    | Abort(t: TaskId)
    | Acquire(t: TaskId)
    | Append(t: TaskId, ok: bool)
    | Release(t: TaskId)
    | Unclaim(t: TaskId)
    | Retract(t: TaskId, ok: bool)
    | StartPrune(t: TaskId, pid: Pid)
    | Decide(t: TaskId, ordered: seq<Record>, cutoff: Option<int>, maxEntries: nat)
    | Rename(t: TaskId)
    | ListBlobs(t: TaskId)
    | ListMarkers(t: TaskId)
    | StatMarker(t: TaskId, marker: Marker, aged: bool)
    | ProbeMarker(t: TaskId, marker: Marker)
    | ReapMarker(t: TaskId, marker: Marker, ok: bool)
    | EndRegistry(t: TaskId)
    | Unlink(t: TaskId, file: BlobName)

  // ----- what each step does -----------------------------------------------------------------------------

  function Goto(s: State, t: TaskId, stage: Stage): State {
    if t in s.tasks then s.(tasks := s.tasks[t := Task(s.tasks[t].pid, stage)]) else s
  }

  function Finish(s: State, t: TaskId): State {
    s.(tasks := s.tasks - {t})
  }

  predicate CanStart(s: State, t: TaskId, pid: Pid) {
    pid in s.alive && t !in s.tasks && s.lock != Some(t)
  }

  function Start(s: State, t: TaskId, pid: Pid, stage: Stage): State {
    s.(tasks := s.tasks[t := Task(pid, stage)])
  }

  function StageOf(s: State, t: TaskId): Option<Stage> {
    if t in s.tasks then Some(s.tasks[t].stage) else None
  }

  function AfterCrash(s: State, pid: Pid): State {
    s.(alive := s.alive - {pid},
       claims := (set m | m in s.claims && m.pid != pid),
       tasks := (map t | t in s.tasks && s.tasks[t].pid != pid :: s.tasks[t]))
  }

  function AfterWrite(s: State, t: TaskId): State
  {
    match StageOf(s, t)
    case Some(Writing(id, input, done)) =>
      var writes := BeginWrites(id, input);
      if done >= |writes| then s
      else Goto(s, t, Writing(id, input, done + 1)).(blobs := s.blobs[writes[done].0 := writes[done].1])
    case Some(Settling(existing, settling, done)) =>
      var writes := SettleWrites(existing, settling);
      if done >= |writes| then s
      else Goto(s, t, Settling(existing, settling, done + 1)).(blobs := s.blobs[writes[done].0 := writes[done].1])
    case _ => s
  }

  /** The preceding write begin hands its undo rule, if it found one: some write entry of the index. */
  predicate MayPrecede(s: State, preceding: Option<Record>) {
    preceding.Some? ==>
      Yield(s.index, preceding.value.id) == preceding && IsEntry(preceding.value) && IsWrite(preceding.value.operation.value)
  }

  function AfterDraft(s: State, t: TaskId, ts: Timestamp, preceding: Option<Record>): State
  {
    match StageOf(s, t)
    case Some(Writing(id, input, done)) =>
      if done != |BeginWrites(id, input)| || !MayPrecede(s, preceding) then s
      else Goto(s, t, Queued(BeginRecord(id, ts, input, preceding), true))
    case _ => s
  }

  function AfterDraftSettle(s: State, t: TaskId): State
  {
    match StageOf(s, t)
    case Some(Settling(existing, settling, done)) =>
      if done != |SettleWrites(existing, settling)| || !IsEntry(existing) then s
      else Goto(s, t, Queued(SettleRecord(existing, settling), false))
    case _ => s
  }

  /** A call fails before the lock: begin still closes its claim and marker. */
  function AfterAbort(s: State, t: TaskId): State
  {
    match StageOf(s, t)
    case Some(Claimed(id, _)) => Goto(s, t, Closing(id))
    case Some(Writing(id, _, _)) => Goto(s, t, Closing(id))
    case Some(Queued(record, begun)) => if begun then Goto(s, t, Closing(record.id)) else Finish(s, t)
    case Some(Settling(_, _, _)) => Finish(s, t)
    case Some(PruneQueued) => Finish(s, t)
    case _ => s
  }

  function AfterAcquire(s: State, t: TaskId): State
  {
    if s.lock.Some? then s
    else
      match StageOf(s, t)
      case Some(Queued(record, begun)) => Goto(s, t, Locked(record, begun)).(lock := Some(t))
      case Some(PruneQueued) => Goto(s, t, PruneRead).(lock := Some(t))
      case _ => s
  }

  function AfterAppend(s: State, t: TaskId, ok: bool): State
  {
    match StageOf(s, t)
    case Some(Locked(record, begun)) =>
      var s' := Goto(s, t, Leaving(record.id, begun));
      if !ok then s'
      else s'.(index := s.index + [Rec(record)], landed := if begun then s.landed + {record.id} else s.landed)
    case _ => s
  }

  /** Stages inside the lock. */
  predicate Holds(stage: Stage) {
    match stage
    case Locked(_, _) | Leaving(_, _) | PruneRead | PruneKept(_) => true
    case SweepStart(_) | SweepListed(_, _) | SweepRegistry(_, _, _, _, _, _) | Sweeping(_, _, _) => true
    case _ => false
  }

  /** A section ends, done or failed; an append only once it has been tried. */
  function AfterRelease(s: State, t: TaskId): State
  {
    var at := StageOf(s, t);
    if at.None? || !Holds(at.value) || at.value.Locked? then s
    else if at.value.Leaving? && at.value.begun then Goto(s, t, Closing(at.value.id)).(lock := None)
    else Finish(s, t).(lock := None)
  }

  function ClaimedBy(s: State, pid: Pid): set<Id> {
    set m | m in s.claims && m.pid == pid :: m.id
  }

  /** Retention on the entries as they are now; nothing to do, not even a sweep, on an empty index. */
  function AfterDecide(s: State, t: TaskId, ordered: seq<Record>, cutoff: Option<int>, maxEntries: nat): State
  {
    if StageOf(s, t) != Some(PruneRead) || ordered == [] then s
    else
      var inFlight := ClaimedBy(s, s.tasks[t].pid);
      var keep := Kept(ordered, cutoff, maxEntries, inFlight);
      if Dropped(ordered, cutoff, maxEntries, inFlight) == [] then Goto(s, t, SweepStart(KeptIds(keep)))
      else Goto(s, t, PruneKept(Reverse(keep)))
  }

  function AfterRename(s: State, t: TaskId): State
  {
    match StageOf(s, t)
    case Some(PruneKept(keep)) => Goto(s, t, SweepStart(KeptIds(keep))).(index := Rewritten(keep))
    case _ => s
  }

  function AfterListBlobs(s: State, t: TaskId): State
  {
    match StageOf(s, t)
    case Some(SweepStart(surviving)) => Goto(s, t, SweepListed(surviving, s.blobs.Keys))
    case _ => s
  }

  function AfterListMarkers(s: State, t: TaskId): State
  {
    match StageOf(s, t)
    case Some(SweepListed(surviving, files)) => Goto(s, t, SweepRegistry(surviving, files, s.markers, {}, {}, {}))
    case _ => s
  }

  /** Another process's marker that can be read and is old is under suspicion; any other protects its id. */
  function AfterStat(s: State, t: TaskId, marker: Marker, aged: bool): State
  {
    match StageOf(s, t)
    case Some(SweepRegistry(surviving, files, unread, suspects, doomed, registered)) =>
      if marker !in unread then s
      else if marker.pid != s.tasks[t].pid && marker in s.markers && aged then
        Goto(s, t, SweepRegistry(surviving, files, unread - {marker}, suspects + {marker}, doomed, registered))
      else Goto(s, t, SweepRegistry(surviving, files, unread - {marker}, suspects, doomed, registered + {marker.id}))
    case _ => s
  }

  /** Only a provably dead process loses its marker. */
  function AfterProbe(s: State, t: TaskId, marker: Marker): State
  {
    match StageOf(s, t)
    case Some(SweepRegistry(surviving, files, unread, suspects, doomed, registered)) =>
      if marker !in suspects then s
      else if marker.pid !in s.alive then
        Goto(s, t, SweepRegistry(surviving, files, unread, suspects - {marker}, doomed + {marker}, registered))
      else Goto(s, t, SweepRegistry(surviving, files, unread, suspects - {marker}, doomed, registered + {marker.id}))
    case _ => s
  }

  /** A marker that could not be unlinked protects nothing in this sweep either. */
  function AfterReap(s: State, t: TaskId, marker: Marker, ok: bool): State
  {
    match StageOf(s, t)
    case Some(SweepRegistry(surviving, files, unread, suspects, doomed, registered)) =>
      if marker !in doomed then s
      else
        Goto(s, t, SweepRegistry(surviving, files, unread, suspects, doomed - {marker}, registered))
          .(markers := if ok then s.markers - {marker} else s.markers)
    case _ => s
  }

  function AfterRegistry(s: State, t: TaskId): State
  {
    match StageOf(s, t)
    case Some(SweepRegistry(surviving, files, unread, suspects, doomed, registered)) =>
      if unread == {} && suspects == {} && doomed == {} then Goto(s, t, Sweeping(surviving, files, registered)) else s
    case _ => s
  }

  /** An orphan goes: a listed whole-entry blob neither surviving, nor claimed here, nor registered. */
  function AfterUnlink(s: State, t: TaskId, file: BlobName): State
  {
    match StageOf(s, t)
    case Some(Sweeping(surviving, files, registered)) =>
      if file !in files || !Sweepable(file, surviving + registered) || Marker(file.id, s.tasks[t].pid) in s.claims then s
      else Goto(s, t, Sweeping(surviving, files - {file}, registered)).(blobs := s.blobs - {file})
    case _ => s
  }

  function AfterUnclaim(s: State, t: TaskId): State
  {
    match StageOf(s, t)
    case Some(Closing(id)) => Goto(s, t, Retracting(id)).(claims := s.claims - {Marker(id, s.tasks[t].pid)})
    case _ => s
  }

  function AfterRetract(s: State, t: TaskId, ok: bool): State
  {
    match StageOf(s, t)
    case Some(Retracting(id)) =>
      Finish(s, t).(markers := if ok then s.markers - {Marker(id, s.tasks[t].pid)} else s.markers)
    case _ => s
  }

  function AfterPublish(s: State, t: TaskId, ok: bool): State
  {
    match StageOf(s, t)
    case Some(Claimed(id, input)) =>
      Goto(s, t, Writing(id, input, 0)).(markers := if ok then s.markers + {Marker(id, s.tasks[t].pid)} else s.markers)
    case _ => s
  }

  /** One step; an action that is not enabled changes nothing. */
  ghost function Step(s: State, a: Action): State {
    match a
    case Spawn(pid) => s.(alive := s.alive + {pid})
    case Crash(pid) => AfterCrash(s, pid)
    case BreakLock => if s.lock.Some? && s.lock.value !in s.tasks then s.(lock := None) else s
    case StartBegin(t, pid, id, input) =>
      if !CanStart(s, t, pid) || id in s.given then s
      else Start(s, t, pid, Claimed(id, input)).(given := s.given[id := input], claims := s.claims + {Marker(id, pid)})
    case StartSettle(t, pid, id, settling) =>
      if !CanStart(s, t, pid) || settling.outcome.Pending? || Yield(s.index, id).None? then s
      else Start(s, t, pid, Settling(Yield(s.index, id).value, settling, 0))
    case StartNote(t, pid, id, note) =>
      if !CanStart(s, t, pid) || Yield(s.index, id).None? then s
      else Start(s, t, pid, Queued(NoteRecord(id, note), false))
    case StartPrune(t, pid) =>
      if CanStart(s, t, pid) then Start(s, t, pid, PruneQueued) else s
    case Publish(t, ok) => AfterPublish(s, t, ok)
    case WriteBlob(t) => AfterWrite(s, t)
    case Draft(t, ts, preceding) => AfterDraft(s, t, ts, preceding)
    case DraftSettle(t) => AfterDraftSettle(s, t)
    case Abort(t) => AfterAbort(s, t)
    case Acquire(t) => AfterAcquire(s, t)
    case Append(t, ok) => AfterAppend(s, t, ok)
    case Release(t) => AfterRelease(s, t)
    case Unclaim(t) => AfterUnclaim(s, t)
    case Retract(t, ok) => AfterRetract(s, t, ok)
    case Decide(t, ordered, cutoff, maxEntries) =>
      if Sorted(Entries(s.index), ordered) then AfterDecide(s, t, ordered, cutoff, maxEntries) else s
    case Rename(t) => AfterRename(s, t)
    case ListBlobs(t) => AfterListBlobs(s, t)
    case ListMarkers(t) => AfterListMarkers(s, t)
    case StatMarker(t, marker, aged) => AfterStat(s, t, marker, aged)
    case ProbeMarker(t, marker) => AfterProbe(s, t, marker)
    case ReapMarker(t, marker, ok) => AfterReap(s, t, marker, ok)
    case EndRegistry(t) => AfterRegistry(s, t)
    case Unlink(t, file) => AfterUnlink(s, t, file)
  }

  ghost function Run(actions: seq<Action>): State {
    if actions == [] then INIT
    else Step(Run(actions[..|actions| - 1]), actions[|actions| - 1])
  }

  // ----- runs from any state -----------------------------------------------------------------------------

  ghost function RunFrom(s: State, actions: seq<Action>): State {
    if actions == [] then s else Step(RunFrom(s, actions[..|actions| - 1]), actions[|actions| - 1])
  }

  lemma {:induction false} RunConcat(actions: seq<Action>, more: seq<Action>)
    ensures Run(actions + more) == RunFrom(Run(actions), more)
  {
    hide Step;
    if more == [] {
      assert actions + more == actions;
    } else {
      RunConcat(actions, more[..|more| - 1]);
      assert (actions + more)[..|actions + more| - 1] == actions + more[..|more| - 1];
    }
  }

  lemma {:induction false} FromConcat(s: State, a: seq<Action>, b: seq<Action>)
    ensures RunFrom(s, a + b) == RunFrom(RunFrom(s, a), b)
  {
    hide Step;
    if b == [] {
      assert a + b == a;
    } else {
      FromConcat(s, a, b[..|b| - 1]);
      assert (a + b)[..|a + b| - 1] == a + b[..|b| - 1];
    }
  }

  lemma ThenStep(s: State, actions: seq<Action>, a: Action)
    ensures RunFrom(s, actions + [a]) == Step(RunFrom(s, actions), a)
  {
    assert (actions + [a])[..|actions|] == actions;
  }

  lemma ThreeSteps(s: State, a1: Action, a2: Action, a3: Action)
    ensures RunFrom(s, [a1, a2, a3]) == Step(Step(Step(s, a1), a2), a3)
  {
    hide Step;
    assert [a1, a2, a3][..2] == [a1, a2] && [a1, a2][..1] == [a1] && [a1][..0] == [];
    assert RunFrom(s, [a1]) == Step(s, a1);
    assert RunFrom(s, [a1, a2]) == Step(Step(s, a1), a2);
  }
}
