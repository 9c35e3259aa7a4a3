/** What every reachable state of the journal protocol keeps, and when a step that leaves index and blobs alone keeps it. */
module JournalInvariant {
  import opened Options
  import opened JournalLog
  import opened JournalWrites
  import opened JournalProtocol

  // ----- the invariant ---------------------------------------------------------------------------------------

  ghost predicate OwnRefs(r: Record) {
    forall b :: b in Refs(r) ==> b.id == r.id
  }

  /** Whatever carries a timestamp is a whole entry. */
  ghost predicate Whole(lines: seq<Line>) {
    forall id :: Latest(lines, id).Some? ==> IsPatch(Latest(lines, id).value) || IsEntry(Latest(lines, id).value)
  }

  /** The images of whatever the index yields for this id are on disk, under its own name. */
  ghost predicate ImagesOnDisk(s: State, id: Id) {
    var y := Yield(s.index, id);
    y.Some? ==> Refs(y.value) <= s.blobs.Keys && OwnRefs(y.value)
  }

  /** A before-blob holds what begin was given. */
  ghost predicate BytesAsGiven(s: State, b: BlobName) {
    b in s.blobs ==> b.id in s.given && (b.which.Before? ==> (b, s.blobs[b]) in BeginWrites(b.id, s.given[b.id]))
  }

  ghost predicate StoreOk(s: State) {
    && IdsOf(s.index) <= s.landed <= s.given.Keys
    && Whole(s.index)
    && (forall id :: ImagesOnDisk(s, id))
    && (forall b :: BytesAsGiven(s, b))
  }

  /** The id of a begin whose line has not been tried yet. */
  function Unlanded(stage: Stage): Option<Id> {
    match stage
    case Claimed(id, _) => Some(id)
    case Writing(id, _, _) => Some(id)
    case Queued(record, begun) => if begun then Some(record.id) else None
    case Locked(record, begun) => if begun then Some(record.id) else None
    case _ => None
  }

  /** The id whose claim and marker the call still has to take down. */
  function Owned(stage: Stage): Option<Id> {
    match stage
    case Leaving(id, begun) => if begun then Some(id) else None
    case Closing(id) => Some(id)
    case Retracting(id) => Some(id)
    case _ => Unlanded(stage)
  }

  function Written(writes: seq<Write>, done: nat): set<BlobName> {
    if done <= |writes| then Names(writes[..done]) else {}
  }

  ghost predicate RecordOk(s: State, r: Record, begun: bool) {
    && OwnRefs(r)
    && if begun then IsEntry(r) && Refs(r) <= s.blobs.Keys
       else IsPatch(r) && r.id in s.landed && (Yield(s.index, r.id).Some? ==> Refs(r) <= s.blobs.Keys)
  }

  ghost predicate SettleOk(s: State, existing: Record, settling: SettleInput, done: nat) {
    && existing.id in s.landed && IsEntry(existing) && OwnRefs(existing)
    && (Yield(s.index, existing.id).Some? ==>
          Refs(existing) <= s.blobs.Keys && Written(SettleWrites(existing, settling), done) <= s.blobs.Keys)
  }

  /** What a call has achieved by its stage. */
  ghost predicate StageOk(s: State, stage: Stage) {
    match stage
    case Claimed(id, input) => id in s.given && s.given[id] == input && forall b :: b in s.blobs ==> b.id != id
    case Writing(id, input, done) =>
      && id in s.given && s.given[id] == input
      && Written(BeginWrites(id, input), done) <= s.blobs.Keys
    case Settling(existing, settling, done) => SettleOk(s, existing, settling, done)
    case Queued(record, begun) => RecordOk(s, record, begun)
    case Locked(record, begun) => RecordOk(s, record, begun)
    case PruneKept(keep) => Selection(s.index, keep)
    case _ => true
  }

  /** What a sweep takes to survive, and the files it means to go through. */
  ghost predicate SweepOk(s: State, stage: Stage) {
    && (Surviving(stage).Some? ==> forall id :: id in Surviving(stage).value <==> Yield(s.index, id).Some?)
    && (forall f :: f in Listed(stage) ==> f.id in s.given)
    && (forall m :: m in Seen(stage) ==> m.id in s.given)
  }

  function Surviving(stage: Stage): Option<set<Id>> {
    match stage
    case SweepStart(surviving) => Some(surviving)
    case SweepListed(surviving, _) => Some(surviving)
    case SweepRegistry(surviving, _, _, _, _, _) => Some(surviving)
    case Sweeping(surviving, _, _) => Some(surviving)
    case _ => None
  }

  function Listed(stage: Stage): set<BlobName> {
    match stage
    case SweepListed(_, files) => files
    case SweepRegistry(_, files, _, _, _, _) => files
    case Sweeping(_, files, _) => files
    case _ => {}
  }

  /** Markers the sweep has read and not yet settled. */
  function Seen(stage: Stage): set<Marker> {
    match stage
    case SweepRegistry(_, _, unread, suspects, doomed, _) => unread + suspects + doomed
    case _ => {}
  }

  /** Markers the sweep found to belong to dead processes. */
  function Doomed(stage: Stage): set<Marker> {
    match stage
    case SweepRegistry(_, _, _, _, doomed, _) => doomed
    case _ => {}
  }

  /** A marker the sweep will still meet or has taken in. */
  ghost predicate Heeded(s: State, stage: Stage, m: Marker) {
    match stage
    case SweepListed(_, _) => m in s.markers
    case SweepRegistry(_, _, unread, suspects, _, registered) => m in unread || m in suspects || m.id in registered
    case Sweeping(_, _, registered) => m.id in registered
    case _ => true
  }

  ghost predicate Marked(s: State, t: TaskId)
    requires t in s.tasks
  {
    var stage := s.tasks[t].stage;
    Unlanded(stage).Some? ==>
      && Unlanded(stage).value !in s.landed
      && (!stage.Claimed? ==> Marker(Unlanded(stage).value, s.tasks[t].pid) in s.markers)
  }

  ghost predicate TaskOk(s: State, t: TaskId)
    requires t in s.tasks
  {
    var Task(pid, stage) := s.tasks[t];
    && pid in s.alive
    && (Holds(stage) ==> s.lock == Some(t))
    && (Owned(stage).Some? ==> Owned(stage).value in s.given)
    && Marked(s, t)
    && StageOk(s, stage)
    && SweepOk(s, stage)
  }

  /** Two calls never own the same id, and a sweep heeds every begin it lists a blob of and dooms the marker of none. */
  ghost predicate Apart(s: State, t: TaskId, u: TaskId)
    requires t in s.tasks && u in s.tasks
  {
    && (Owned(s.tasks[t].stage).Some? ==> Owned(s.tasks[t].stage) != Owned(s.tasks[u].stage))
    && (forall f :: f in Listed(s.tasks[t].stage) && Unlanded(s.tasks[u].stage) == Some(f.id) ==>
          Heeded(s, s.tasks[t].stage, Marker(f.id, s.tasks[u].pid)))
    && (Unlanded(s.tasks[u].stage).Some? ==> Marker(Unlanded(s.tasks[u].stage).value, s.tasks[u].pid) !in Doomed(s.tasks[t].stage))
  }

  /** Markers are only ever published for ids that were given. */
  ghost predicate RegistryOk(s: State) {
    forall m :: m in s.markers ==> m.id in s.given
  }

  ghost predicate Inv(s: State) {
    && StoreOk(s)
    && RegistryOk(s)
    && (forall t :: t in s.tasks ==> TaskOk(s, t))
    && (forall t, u :: t in s.tasks && u in s.tasks && t != u ==> Apart(s, t, u))
  }

  // ----- steps that leave index and blobs alone -----------------------------------------------------------------

  /** t moved; what the other calls rely on is still there. */
  ghost predicate Quiet(s: State, s': State, t: TaskId) {
    && s'.index == s.index && s'.blobs == s.blobs && s'.landed == s.landed && s'.alive == s.alive
    && (s'.lock == s.lock || s.lock == None || s.lock == Some(t))
    && (forall id :: id in s.given ==> id in s'.given && s'.given[id] == s.given[id])
    && (forall u :: u != t ==> (u in s'.tasks <==> u in s.tasks) && (u in s.tasks ==> s'.tasks[u] == s.tasks[u]))
    && (forall u :: u in s.tasks && u != t && Unlanded(s.tasks[u].stage).Some? ==>
          var m := Marker(Unlanded(s.tasks[u].stage).value, s.tasks[u].pid); m in s.markers ==> m in s'.markers)
    && (forall m :: m in s'.markers ==> m in s.markers || m.id in s.given)
  }

  lemma QuietStore(s: State, s': State, t: TaskId)
    requires StoreOk(s) && Quiet(s, s', t)
    ensures StoreOk(s')
  {
    hide Yield, Whole, OwnRefs, Refs, BeginWrites, IdsOf;
    forall id ensures ImagesOnDisk(s', id) {
      assert ImagesOnDisk(s, id);
    }
    forall b ensures BytesAsGiven(s', b) {
      assert BytesAsGiven(s, b);
    }
  }

  lemma QuietOther(s: State, s': State, t: TaskId, u: TaskId)
    requires u in s.tasks && u != t && TaskOk(s, u) && Quiet(s, s', t)
    ensures u in s'.tasks && TaskOk(s', u)
  {
    hide Yield, OwnRefs, Refs, BeginWrites, SettleWrites, Selection;
  }

  lemma QuietApart(s: State, s': State, t: TaskId, u: TaskId, v: TaskId)
    requires u in s.tasks && v in s.tasks && u != t && v != t && Apart(s, u, v) && Quiet(s, s', t)
    ensures u in s'.tasks && v in s'.tasks && Apart(s', u, v)
  {
  }

  /** A quiet step keeps everything if the moved call is well off, alone and beside the others. */
  lemma QuietKeeps(s: State, s': State, t: TaskId)
    requires Inv(s) && Quiet(s, s', t)
    requires t in s'.tasks ==> TaskOk(s', t)
    requires t in s'.tasks ==> forall u :: u in s'.tasks && u != t ==> Apart(s', t, u) && Apart(s', u, t)
    ensures Inv(s')
  {
    hide StoreOk, TaskOk, Apart;
    QuietStore(s, s', t);
    forall u | u in s'.tasks ensures TaskOk(s', u) {
      if u != t {
        QuietOther(s, s', t, u);
      }
    }
    forall u, v | u in s'.tasks && v in s'.tasks && u != v ensures Apart(s', u, v) {
      if u != t && v != t {
        QuietApart(s, s', t, u, v);
      }
    }
  }

  /** The call keeps at most the id and marker it had, and lists nothing. */
  ghost predicate Narrows(s: State, s': State, t: TaskId) {
    && t in s.tasks && t in s'.tasks && s'.tasks[t].pid == s.tasks[t].pid
    && var was, now := s.tasks[t].stage, s'.tasks[t].stage;
    && Listed(now) == {} && Seen(now) == {}
    && (Owned(now).None? || Owned(now) == Owned(was))
    && (Unlanded(now).None? || Unlanded(now) == Unlanded(was))
    && (Unlanded(now).Some? ==> var m := Marker(Unlanded(now).value, s.tasks[t].pid); m in s.markers ==> m in s'.markers)
  }

  lemma NarrowsApart(s: State, s': State, t: TaskId, u: TaskId)
    requires u in s.tasks && u != t && Quiet(s, s', t) && Narrows(s, s', t)
    requires Apart(s, t, u) && Apart(s, u, t)
    ensures u in s'.tasks && Apart(s', t, u) && Apart(s', u, t)
  {
  }

  lemma NarrowKeeps(s: State, s': State, t: TaskId)
    requires Inv(s) && Quiet(s, s', t) && Narrows(s, s', t) && TaskOk(s', t)
    ensures Inv(s')
  {
    assert t in s.tasks && t in s'.tasks;
    hide StoreOk, TaskOk, Apart, Narrows;
    forall u | u in s'.tasks && u != t ensures Apart(s', t, u) && Apart(s', u, t) {
      NarrowsApart(s, s', t, u);
    }
    QuietKeeps(s, s', t);
  }

  /** Moving on, perhaps taking or dropping the lock, with no more than the call owned before. */
  lemma GotoKeeps(s: State, t: TaskId, stage: Stage, lock: Option<TaskId>)
    requires Inv(s) && t in s.tasks && Listed(stage) == {} && Seen(stage) == {}
    requires Owned(stage).None? || Owned(stage) == Owned(s.tasks[t].stage)
    requires Unlanded(stage).None? || Unlanded(stage) == Unlanded(s.tasks[t].stage)
    requires stage.Claimed? || Unlanded(stage).None? || !s.tasks[t].stage.Claimed?
    requires lock == s.lock || s.lock == None || s.lock == Some(t)
    requires Holds(stage) ==> lock == Some(t)
    requires StageOk(s, stage)
    requires Surviving(stage).Some? ==> forall id :: id in Surviving(stage).value <==> Yield(s.index, id).Some?
    ensures Inv(Goto(s, t, stage).(lock := lock))
  {
    var s' := Goto(s, t, stage).(lock := lock);
    StageStays(s, s', stage);
    hide StageOk, Yield, StoreOk;
    assert TaskOk(s, t);
    assert TaskOk(s', t);
    hide TaskOk, Apart;
    NarrowKeeps(s, s', t);
  }

  /** A call ends; if it held the lock, the lock goes too. */
  lemma GoneKeeps(s: State, t: TaskId, lock: Option<TaskId>)
    requires Inv(s) && t in s.tasks && (lock == s.lock || s.lock == Some(t))
    ensures Inv(Finish(s, t).(lock := lock))
  {
    hide StoreOk, TaskOk, Apart;
    QuietKeeps(s, Finish(s, t).(lock := lock), t);
  }

  lemma StageStays(s: State, s': State, stage: Stage)
    requires StageOk(s, stage)
    requires s'.index == s.index && s'.blobs == s.blobs && s'.landed == s.landed && s'.given == s.given
    ensures StageOk(s', stage)
  {
    hide Yield, Refs, BeginWrites, SettleWrites, Selection;
  }

  lemma NothingOwned(s: State, t: TaskId, u: TaskId)
    requires t in s.tasks && u in s.tasks
    requires Owned(s.tasks[t].stage).None? && Listed(s.tasks[t].stage) == {} && Seen(s.tasks[t].stage) == {}
    ensures Apart(s, t, u) && Apart(s, u, t)
  {
  }

  /** A new call that owns nothing disturbs nobody. */
  lemma StartKeeps(s: State, t: TaskId, pid: Pid, stage: Stage)
    requires Inv(s) && CanStart(s, t, pid) && Owned(stage).None? && Listed(stage) == {} && Seen(stage) == {} && !Holds(stage)
    requires StageOk(s, stage) && Surviving(stage).None?
    ensures Inv(Start(s, t, pid, stage))
  {
    var s' := Start(s, t, pid, stage);
    StageStays(s, s', stage);
    hide StoreOk, StageOk, Yield, RegistryOk;
    assert TaskOk(s', t);
    forall u | u in s'.tasks && u != t ensures Apart(s', t, u) && Apart(s', u, t) {
      NothingOwned(s', t, u);
    }
    hide TaskOk, Apart;
    QuietKeeps(s, s', t);
  }

  lemma StillHeld(s: State, t: TaskId)
    requires Inv(s) && t in s.tasks && Holds(s.tasks[t].stage)
    ensures s.lock == Some(t)
  {
    assert TaskOk(s, t);
  }
}
