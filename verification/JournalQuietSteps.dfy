/** The steps of the journal protocol that leave index and blobs alone: starting, drafting, locking, leaving, and the reading half of a sweep. */
module JournalQuietSteps {
  import opened Options
  import opened JournalLog
  import opened JournalWrites
  import opened Retention
  import opened JournalSoundness
  import opened JournalProtocol
  import opened JournalInvariant

  /** A fresh id is nobody's, and no sweep has listed a blob of it. */
  lemma FreshApart(s: State, s': State, t: TaskId, id: Id, u: TaskId)
    requires u in s.tasks && u != t && TaskOk(s, u) && id !in s.given && u in s'.tasks && s'.tasks[u] == s.tasks[u]
    requires t in s'.tasks && s'.tasks[t].stage.Claimed? && s'.tasks[t].stage.id == id
    ensures Apart(s', t, u) && Apart(s', u, t)
  {
    hide StageOk, Yield;
  }

  lemma FreshTaskOk(s: State, s': State, t: TaskId, pid: Pid, id: Id, input: BeginInput)
    requires StoreOk(s) && id !in s.given && pid in s.alive
    requires s'.blobs == s.blobs && s'.landed == s.landed && s'.alive == s.alive && s'.given == s.given[id := input]
    requires t in s'.tasks && s'.tasks[t] == Task(pid, Claimed(id, input))
    ensures TaskOk(s', t)
  {
    hide Whole, IdsOf, ImagesOnDisk, BeginWrites;
    assert forall b :: b in s.blobs ==> BytesAsGiven(s, b);
  }

  lemma StartBeginKeeps(s: State, t: TaskId, pid: Pid, id: Id, input: BeginInput)
    requires Inv(s)
    ensures Inv(Step(s, StartBegin(t, pid, id, input)))
  {
    var s' := Step(s, StartBegin(t, pid, id, input));
    if s' != s {
      hide StoreOk, TaskOk, Apart, RegistryOk;
      FreshTaskOk(s, s', t, pid, id, input);
      forall u | u in s'.tasks && u != t ensures Apart(s', t, u) && Apart(s', u, t) {
        FreshApart(s, s', t, id, u);
      }
      QuietKeeps(s, s', t);
    }
  }

  lemma OtherStartsKeep(s: State, a: Action)
    requires Inv(s) && (a.StartSettle? || a.StartNote? || a.StartPrune?)
    ensures Inv(Step(s, a))
  {
    hide Yield, Refs, SettleWrites, BeginWrites, Whole, NoteRecord;
    if Step(s, a) != s && !a.StartPrune? {
      assert ImagesOnDisk(s, a.id);
      YieldIsNormal(s.index, a.id);
      YieldIds(s.index, a.id);
    }
    if Step(s, a) != s {
      hide StoreOk, TaskOk, Apart, IdsOf;
      var stage := Step(s, a).tasks[a.t].stage;
      StartKeeps(s, a.t, a.pid, stage);
    }
  }

  lemma PublishKeeps(s: State, t: TaskId)
    requires Inv(s)
    ensures Inv(AfterPublish(s, t, true))
  {
    hide Yield, Refs, SettleWrites, BeginWrites, Selection;
    var s' := AfterPublish(s, t, true);
    if s' != s {
      assert TaskOk(s, t);
      assert TaskOk(s', t);
      hide StoreOk, TaskOk, Apart;
      NarrowKeeps(s, s', t);
    }
  }

  lemma DraftKeeps(s: State, t: TaskId, ts: Timestamp, preceding: Option<Record>)
    requires Inv(s)
    ensures Inv(AfterDraft(s, t, ts, preceding))
  {
    hide Refs, SettleWrites, BeginWrites, BeginRecord, StoreOk, Apart;
    if AfterDraft(s, t, ts, preceding) != s {
      assert TaskOk(s, t);
      var Writing(id, input, done) := s.tasks[t].stage;
      BeginNamesItsBlobs(id, ts, input, preceding);
      assert BeginWrites(id, input)[..done] == BeginWrites(id, input);
      GotoKeeps(s, t, Queued(BeginRecord(id, ts, input, preceding), true), s.lock);
    }
  }

  lemma DraftSettleKeeps(s: State, t: TaskId)
    requires Inv(s)
    ensures Inv(AfterDraftSettle(s, t))
  {
    hide Yield, Refs, SettleWrites, SettleRecord, StoreOk, Apart;
    if AfterDraftSettle(s, t) != s {
      assert TaskOk(s, t);
      var Settling(existing, settling, done) := s.tasks[t].stage;
      SettleNamesItsBlobs(existing, settling);
      assert SettleWrites(existing, settling)[..done] == SettleWrites(existing, settling);
      GotoKeeps(s, t, Queued(SettleRecord(existing, settling), false), s.lock);
    }
  }

  lemma AbortKeeps(s: State, t: TaskId)
    requires Inv(s)
    ensures Inv(AfterAbort(s, t))
  {
    hide Yield, Inv, Quiet;
    var s' := AfterAbort(s, t);
    if s' != s {
      if t in s'.tasks {
        GotoKeeps(s, t, s'.tasks[t].stage, s.lock);
      } else {
        GoneKeeps(s, t, s.lock);
      }
    }
  }

  lemma AcquireKeeps(s: State, t: TaskId)
    requires Inv(s)
    ensures Inv(AfterAcquire(s, t))
  {
    hide Yield, StoreOk, Apart, RecordOk;
    var s' := AfterAcquire(s, t);
    if s' != s {
      assert TaskOk(s, t);
      hide TaskOk;
      GotoKeeps(s, t, s'.tasks[t].stage, Some(t));
    }
  }

  lemma FailedAppendKeeps(s: State, t: TaskId)
    requires Inv(s)
    ensures Inv(AfterAppend(s, t, false))
  {
    hide Yield, Inv, Quiet;
    var s' := AfterAppend(s, t, false);
    if s' != s {
      StillHeld(s, t);
      GotoKeeps(s, t, s'.tasks[t].stage, s.lock);
    }
  }

  lemma ReleaseKeeps(s: State, t: TaskId)
    requires Inv(s)
    ensures Inv(AfterRelease(s, t))
  {
    hide Yield, Inv, Quiet;
    var s' := AfterRelease(s, t);
    if s' != s {
      StillHeld(s, t);
      if t in s'.tasks {
        GotoKeeps(s, t, s'.tasks[t].stage, None);
      } else {
        GoneKeeps(s, t, None);
      }
    }
  }

  lemma UnclaimKeeps(s: State, t: TaskId)
    requires Inv(s)
    ensures Inv(AfterUnclaim(s, t))
  {
    hide Yield, Refs, SettleWrites, BeginWrites, Selection, StoreOk, Apart;
    var s' := AfterUnclaim(s, t);
    if s' != s {
      assert TaskOk(s, t);
      NarrowKeeps(s, s', t);
    }
  }

  lemma RetractKeeps(s: State, t: TaskId, ok: bool)
    requires Inv(s)
    ensures Inv(AfterRetract(s, t, ok))
  {
    hide Yield, StoreOk, TaskOk;
    var s' := AfterRetract(s, t, ok);
    if s' != s {
      forall u | u in s.tasks && u != t
        ensures Owned(s.tasks[u].stage) != Some(s.tasks[t].stage.id)
      {
        assert Apart(s, t, u);
      }
      hide Apart;
      QuietKeeps(s, s', t);
    }
  }

  // ----- the sweep's own steps ------------------------------------------------------------------------------------

  lemma DecideKeeps(s: State, t: TaskId, ordered: seq<Record>, cutoff: Option<int>, maxEntries: nat)
    requires Inv(s) && Sorted(Entries(s.index), ordered)
    ensures Inv(AfterDecide(s, t, ordered, cutoff, maxEntries))
  {
    hide Yield, Inv, Quiet, Sorted, Kept, Dropped, KeptIds, Entries, Selection;
    var s' := AfterDecide(s, t, ordered, cutoff, maxEntries);
    if s' != s {
      StillHeld(s, t);
      var inFlight := ClaimedBy(s, s.tasks[t].pid);
      RetainedSelection(s.index, ordered, cutoff, maxEntries, inFlight);
      if Dropped(ordered, cutoff, maxEntries, inFlight) == [] {
        NothingDropped(s.index, ordered, cutoff, maxEntries, inFlight);
        forall id ensures id in KeptIds(Kept(ordered, cutoff, maxEntries, inFlight)) <==> Yield(s.index, id).Some? {
          EntriesYield(s.index, id);
        }
      }
      GotoKeeps(s, t, s'.tasks[t].stage, s.lock);
    }
  }

  lemma ListedApart(s: State, t: TaskId, u: TaskId)
    requires t in s.tasks && s.tasks[t].stage.SweepStart? && u in s.tasks && u != t
    requires TaskOk(s, u) && Apart(s, t, u) && Apart(s, u, t)
    ensures var s' := AfterListBlobs(s, t); Apart(s', t, u) && Apart(s', u, t)
  {
    hide Yield, Refs, SettleWrites, BeginWrites, Selection, RecordOk, SettleOk;
  }

  lemma ListedOwn(s: State, t: TaskId)
    requires StoreOk(s) && t in s.tasks && TaskOk(s, t) && s.tasks[t].stage.SweepStart?
    ensures TaskOk(AfterListBlobs(s, t), t)
  {
    hide Yield, BeginWrites, Whole, IdsOf, ImagesOnDisk;
    assert forall b :: b in s.blobs ==> BytesAsGiven(s, b);
  }

  /** The blobs a sweep lists belong to begins whose markers are already there. */
  lemma ListBlobsKeeps(s: State, t: TaskId)
    requires Inv(s)
    ensures Inv(AfterListBlobs(s, t))
  {
    hide StoreOk, TaskOk, Apart, RegistryOk;
    var s' := AfterListBlobs(s, t);
    if s' != s {
      ListedOwn(s, t);
      forall u | u in s'.tasks && u != t ensures Apart(s', t, u) && Apart(s', u, t) {
        ListedApart(s, t, u);
      }
      QuietKeeps(s, s', t);
    }
  }

  lemma ListMarkersKeeps(s: State, t: TaskId)
    requires Inv(s)
    ensures Inv(AfterListMarkers(s, t))
  {
    hide Yield, Refs, SettleWrites, BeginWrites, Selection, RecordOk, SettleOk, StoreOk, BytesAsGiven, Written;
    var s' := AfterListMarkers(s, t);
    if s' != s {
      assert TaskOk(s, t);
      forall u | u in s'.tasks && u != t ensures Apart(s', t, u) && Apart(s', u, t) {
        assert Apart(s, u, t) && Apart(s, t, u);
      }
      assert TaskOk(s', t);
      hide TaskOk, Apart;
      QuietKeeps(s, s', t);
    }
  }

  lemma TasksAlive(s: State)
    requires Inv(s)
    ensures forall u :: u in s.tasks ==> s.tasks[u].pid in s.alive
  {
    forall u | u in s.tasks ensures s.tasks[u].pid in s.alive {
      assert TaskOk(s, u);
    }
  }

  /** What a step of t through the registry leaves for the others. */
  ghost predicate Registers(s: State, s': State, t: TaskId) {
    && s' == s.(tasks := s'.tasks, markers := s'.markers) && s'.markers <= s.markers
    && t in s.tasks && s.tasks[t].stage.SweepRegistry?
    && t in s'.tasks && s'.tasks == s.tasks[t := s'.tasks[t]] && s'.tasks[t].pid == s.tasks[t].pid && s'.tasks[t].stage.SweepRegistry?
    && var was, now := s.tasks[t].stage, s'.tasks[t].stage;
    && now.surviving == was.surviving && now.files == was.files && Seen(now) <= Seen(was)
    && (forall m :: m in s.markers && m !in s'.markers ==> m in was.doomed)
    && (forall m :: m in now.doomed && m !in was.doomed ==> m.pid !in s.alive)
    && (forall m :: Heeded(s, was, m) ==> Heeded(s', now, m) || m.pid !in s.alive)
  }

  lemma RegistersApart(s: State, s': State, t: TaskId, u: TaskId)
    requires Registers(s, s', t) && u in s.tasks && u != t && Apart(s, t, u) && Apart(s, u, t) && s.tasks[u].pid in s.alive
    requires Listed(s.tasks[u].stage) == {}
    ensures u in s'.tasks && Apart(s', t, u) && Apart(s', u, t)
  {
  }

  lemma RegistersOwn(s: State, s': State, t: TaskId)
    requires Registers(s, s', t) && TaskOk(s, t)
    ensures TaskOk(s', t)
  {
    hide Yield;
    StageStays(s, s', s'.tasks[t].stage);
  }

  lemma RegistersKeeps(s: State, s': State, t: TaskId)
    requires Inv(s) && Registers(s, s', t)
    ensures Inv(s')
  {
    hide Yield, StageOk, StoreOk, RegistryOk, Heeded;
    assert TaskOk(s, t);
    TasksAlive(s);
    forall u | u in s'.tasks && u != t
      ensures Apart(s', t, u) && Apart(s', u, t)
      ensures Unlanded(s.tasks[u].stage).Some? ==> Marker(Unlanded(s.tasks[u].stage).value, s.tasks[u].pid) !in s.tasks[t].stage.doomed
    {
      assert Apart(s, u, t) && Apart(s, t, u);
      assert TaskOk(s, u);
      RegistersApart(s, s', t, u);
    }
    hide Apart;
    RegistersOwn(s, s', t);
    hide TaskOk;
    QuietKeeps(s, s', t);
  }

  lemma StatKeeps(s: State, t: TaskId, marker: Marker, aged: bool)
    requires Inv(s)
    ensures Inv(AfterStat(s, t, marker, aged))
  {
    hide Inv;
    var s' := AfterStat(s, t, marker, aged);
    if s' != s {
      RegistersKeeps(s, s', t);
    }
  }

  /** Every live begin stays heeded: only a dead process is doomed. */
  lemma ProbeKeeps(s: State, t: TaskId, marker: Marker)
    requires Inv(s)
    ensures Inv(AfterProbe(s, t, marker))
  {
    hide Inv;
    var s' := AfterProbe(s, t, marker);
    if s' != s {
      RegistersKeeps(s, s', t);
    }
  }

  /** Reaping takes a dead process's marker, even if that pid is in use again: no begin relies on it. */
  lemma ReapKeeps(s: State, t: TaskId, marker: Marker, ok: bool)
    requires Inv(s)
    ensures Inv(AfterReap(s, t, marker, ok))
  {
    hide Inv;
    var s' := AfterReap(s, t, marker, ok);
    if s' != s {
      RegistersKeeps(s, s', t);
    }
  }

  lemma RegistryKeeps(s: State, t: TaskId)
    requires Inv(s)
    ensures Inv(AfterRegistry(s, t))
  {
    hide Yield, Refs, SettleWrites, BeginWrites, Selection, RecordOk, SettleOk, StoreOk;
    var s' := AfterRegistry(s, t);
    if s' != s {
      assert TaskOk(s, t);
      forall u | u in s'.tasks && u != t ensures Apart(s', t, u) && Apart(s', u, t) {
        assert Apart(s, u, t) && Apart(s, t, u);
      }
      assert TaskOk(s', t);
      hide TaskOk, Apart;
      QuietKeeps(s, s', t);
    }
  }
}
