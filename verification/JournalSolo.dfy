/**
  A call of the journal protocol that nobody disturbs: step by step it does exactly what the same
  call of the one-process journal does at once.
 */
module JournalSolo {
  import opened Options
  import opened Sequences
  import opened JournalLog
  import opened JournalWrites
  import opened Retention
  import opened JournalSoundness
  import opened JournalProtocol
  import Journals

  // ----- writing blobs ------------------------------------------------------------------------------------------

  lemma {:induction false} WriteAllSnoc(blobs: map<BlobName, string>, writes: seq<Write>, w: Write)
    ensures WriteAll(blobs, writes + [w]) == WriteAll(blobs, writes)[w.0 := w.1]
    decreases |writes|
  {
    if writes == [] {
      assert [w][1..] == [];
    } else {
      WriteAllSnoc(blobs[writes[0].0 := writes[0].1], writes[1..], w);
      assert (writes + [w])[1..] == writes[1..] + [w];
    }
  }

  /** A call at a stage of its own; the rest of the state is as it is. */
  function At(s: State, t: TaskId, pid: Pid, stage: Stage): State {
    s.(tasks := s.tasks[t := Task(pid, stage)])
  }

  lemma AtAgain(s: State, t: TaskId, pid: Pid, a: Stage, b: Stage)
    ensures At(s, t, pid, a).tasks[t := Task(pid, b)] == At(s, t, pid, b).tasks
  {
  }

  lemma AtGone(s: State, t: TaskId, pid: Pid, stage: Stage)
    requires t !in s.tasks
    ensures At(s, t, pid, stage).tasks - {t} == s.tasks
  {
  }

  function Writes(t: TaskId, n: nat): (r: seq<Action>)
    ensures |r| == n
  {
    if n == 0 then [] else Writes(t, n - 1) + [WriteBlob(t)]
  }

  lemma {:induction false} BeginWritesAll(s: State, t: TaskId, pid: Pid, id: Id, input: BeginInput, n: nat)
    requires n <= |BeginWrites(id, input)|
    ensures RunFrom(At(s, t, pid, Writing(id, input, 0)), Writes(t, n))
         == At(s, t, pid, Writing(id, input, n)).(blobs := WriteAll(s.blobs, BeginWrites(id, input)[..n]))
  {
    hide BeginWrites, At;
    var start, writes := At(s, t, pid, Writing(id, input, 0)), BeginWrites(id, input);
    if n == 0 {
      AtBlobs(s, t, pid, Writing(id, input, 0));
    } else {
      BeginWritesAll(s, t, pid, id, input, n - 1);
      ThenStep(start, Writes(t, n - 1), WriteBlob(t));
      WriteAllSnoc(s.blobs, writes[..n - 1], writes[n - 1]);
      assert writes[..n] == writes[..n - 1] + [writes[n - 1]];
      hide RunFrom, WriteAll, Writes;
      BeginWriteStep(s, t, pid, id, input, n - 1, WriteAll(s.blobs, writes[..n - 1]));
    }
  }

  lemma AtBlobs(s: State, t: TaskId, pid: Pid, stage: Stage)
    ensures At(s, t, pid, stage).(blobs := s.blobs) == At(s, t, pid, stage)
  {
  }

  lemma BeginWriteStep(s: State, t: TaskId, pid: Pid, id: Id, input: BeginInput, done: nat, blobs: map<BlobName, string>)
    requires done < |BeginWrites(id, input)|
    ensures var w := BeginWrites(id, input)[done];
            Step(At(s, t, pid, Writing(id, input, done)).(blobs := blobs), WriteBlob(t))
            == At(s, t, pid, Writing(id, input, done + 1)).(blobs := blobs[w.0 := w.1])
  {
    hide BeginWrites;
    AtAgain(s, t, pid, Writing(id, input, done), Writing(id, input, done + 1));
  }

  lemma {:induction false} SettleWritesAll(s: State, t: TaskId, pid: Pid, existing: Record, settling: SettleInput, n: nat)
    requires n <= |SettleWrites(existing, settling)|
    ensures RunFrom(At(s, t, pid, Settling(existing, settling, 0)), Writes(t, n))
         == At(s, t, pid, Settling(existing, settling, n)).(blobs := WriteAll(s.blobs, SettleWrites(existing, settling)[..n]))
  {
    hide SettleWrites, At;
    var start, writes := At(s, t, pid, Settling(existing, settling, 0)), SettleWrites(existing, settling);
    if n == 0 {
      AtBlobs(s, t, pid, Settling(existing, settling, 0));
    } else {
      SettleWritesAll(s, t, pid, existing, settling, n - 1);
      ThenStep(start, Writes(t, n - 1), WriteBlob(t));
      WriteAllSnoc(s.blobs, writes[..n - 1], writes[n - 1]);
      assert writes[..n] == writes[..n - 1] + [writes[n - 1]];
      hide RunFrom, WriteAll, Writes;
      SettleWriteStep(s, t, pid, existing, settling, n - 1, WriteAll(s.blobs, writes[..n - 1]));
    }
  }

  lemma SettleWriteStep(s: State, t: TaskId, pid: Pid, existing: Record, settling: SettleInput, done: nat, blobs: map<BlobName, string>)
    requires done < |SettleWrites(existing, settling)|
    ensures var w := SettleWrites(existing, settling)[done];
            Step(At(s, t, pid, Settling(existing, settling, done)).(blobs := blobs), WriteBlob(t))
            == At(s, t, pid, Settling(existing, settling, done + 1)).(blobs := blobs[w.0 := w.1])
  {
    hide SettleWrites;
    AtAgain(s, t, pid, Settling(existing, settling, done), Settling(existing, settling, done + 1));
  }

  // ----- landing a line -------------------------------------------------------------------------------------------

  lemma LandSteps(s: State, t: TaskId, pid: Pid, r: Record, begun: bool)
    requires s.lock == None
    ensures RunFrom(At(s, t, pid, Queued(r, begun)), [Acquire(t), Append(t, true), Release(t)])
         == Step(At(s, t, pid, Leaving(r.id, begun))
                   .(lock := Some(t), index := s.index + [Rec(r)], landed := if begun then s.landed + {r.id} else s.landed), Release(t))
  {
    ThreeSteps(At(s, t, pid, Queued(r, begun)), Acquire(t), Append(t, true), Release(t));
    AtAgain(s, t, pid, Queued(r, begun), Locked(r, begun));
    AtAgain(s, t, pid, Locked(r, begun), Leaving(r.id, begun));
    AcquireStep(s, t, pid, r, begun);
    AppendStep(s, t, pid, r, begun);
    hide RunFrom, Step, At;
  }

  lemma AcquireStep(s: State, t: TaskId, pid: Pid, r: Record, begun: bool)
    requires s.lock == None
    ensures Step(At(s, t, pid, Queued(r, begun)), Acquire(t)) == At(s, t, pid, Locked(r, begun)).(lock := Some(t))
  {
    AtAgain(s, t, pid, Queued(r, begun), Locked(r, begun));
  }

  lemma AppendStep(s: State, t: TaskId, pid: Pid, r: Record, begun: bool)
    ensures Step(At(s, t, pid, Locked(r, begun)).(lock := Some(t)), Append(t, true))
         == At(s, t, pid, Leaving(r.id, begun))
              .(lock := Some(t), index := s.index + [Rec(r)], landed := if begun then s.landed + {r.id} else s.landed)
  {
    AtAgain(s, t, pid, Locked(r, begun), Leaving(r.id, begun));
  }

  /** A patch lands and the call is over. */
  lemma PatchLands(s: State, t: TaskId, pid: Pid, r: Record)
    requires t !in s.tasks && s.lock == None
    ensures RunFrom(At(s, t, pid, Queued(r, false)), [Acquire(t), Append(t, true), Release(t)]) == s.(index := s.index + [Rec(r)])
  {
    LandSteps(s, t, pid, r, false);
    hide RunFrom;
    AtGone(s, t, pid, Leaving(r.id, false));
  }

  /** A begin's line lands, and its claim and marker go. */
  lemma BeginLands(s: State, t: TaskId, pid: Pid, r: Record)
    requires t !in s.tasks && s.lock == None
    ensures RunFrom(At(s, t, pid, Queued(r, true)), [Acquire(t), Append(t, true), Release(t)] + [Unclaim(t)] + [Retract(t, true)])
         == s.(index := s.index + [Rec(r)], landed := s.landed + {r.id},
               claims := s.claims - {Marker(r.id, pid)}, markers := s.markers - {Marker(r.id, pid)})
  {
    var start, three := At(s, t, pid, Queued(r, true)), [Acquire(t), Append(t, true), Release(t)];
    LandSteps(s, t, pid, r, true);
    ThenStep(start, three, Unclaim(t));
    ThenStep(start, three + [Unclaim(t)], Retract(t, true));
    hide RunFrom;
    var landed := s.(index := s.index + [Rec(r)], landed := s.landed + {r.id});
    ReleaseStep(s, t, pid, r);
    UnclaimStep(landed, t, pid, r.id);
    RetractStep(landed, t, pid, r.id);
    hide Step, At;
  }

  lemma ReleaseStep(s: State, t: TaskId, pid: Pid, r: Record)
    requires s.lock == None
    ensures Step(At(s, t, pid, Leaving(r.id, true)).(lock := Some(t), index := s.index + [Rec(r)], landed := s.landed + {r.id}), Release(t))
         == At(s.(index := s.index + [Rec(r)], landed := s.landed + {r.id}), t, pid, Closing(r.id))
  {
    AtAgain(s, t, pid, Leaving(r.id, true), Closing(r.id));
  }

  lemma UnclaimStep(s: State, t: TaskId, pid: Pid, id: Id)
    ensures Step(At(s, t, pid, Closing(id)), Unclaim(t)) == At(s, t, pid, Retracting(id)).(claims := s.claims - {Marker(id, pid)})
  {
    AtAgain(s, t, pid, Closing(id), Retracting(id));
  }

  lemma RetractStep(s: State, t: TaskId, pid: Pid, id: Id)
    requires t !in s.tasks
    ensures Step(At(s, t, pid, Retracting(id)).(claims := s.claims - {Marker(id, pid)}), Retract(t, true))
         == s.(claims := s.claims - {Marker(id, pid)}, markers := s.markers - {Marker(id, pid)})
  {
    AtGone(s, t, pid, Retracting(id));
  }

  /** Before it is in the lock a begin can fail: its claim and marker go, and its blobs are left to the next sweep. */
  lemma FailedBeginRetracts(s: State, t: TaskId, pid: Pid, id: Id, stage: Stage)
    requires t !in s.tasks
    requires (stage.Claimed? && stage.id == id) || (stage.Writing? && stage.id == id) || (stage.Queued? && stage.begun && stage.record.id == id)
    ensures RunFrom(At(s, t, pid, stage), [Abort(t)] + [Unclaim(t)] + [Retract(t, true)])
         == s.(claims := s.claims - {Marker(id, pid)}, markers := s.markers - {Marker(id, pid)})
  {
    var start := At(s, t, pid, stage);
    OneStep(start, Abort(t));
    ThenStep(start, [Abort(t)], Unclaim(t));
    ThenStep(start, [Abort(t)] + [Unclaim(t)], Retract(t, true));
    hide RunFrom;
    AtAgain(s, t, pid, stage, Closing(id));
    assert Step(start, Abort(t)) == At(s, t, pid, Closing(id));
    UnclaimStep(s, t, pid, id);
    RetractStep(s, t, pid, id);
    hide Step, At;
  }

  /** A settle, a note or a prune that fails before the lock leaves nothing but the blobs it wrote. */
  lemma FailedPatchIsGone(s: State, t: TaskId, pid: Pid, stage: Stage)
    requires t !in s.tasks && (stage.Settling? || stage.PruneQueued? || (stage.Queued? && !stage.begun))
    ensures Step(At(s, t, pid, stage), Abort(t)) == s
  {
    AtGone(s, t, pid, stage);
  }

  /** A line that cannot be appended is not there, and the lock is free again. */
  lemma FailedAppendReleases(s: State, t: TaskId, pid: Pid, r: Record, begun: bool)
    requires t !in s.tasks && s.lock == None
    ensures RunFrom(At(s, t, pid, Locked(r, begun)).(lock := Some(t)), [Append(t, false)] + [Release(t)])
         == if begun then At(s, t, pid, Closing(r.id)) else s
  {
    var start := At(s, t, pid, Locked(r, begun)).(lock := Some(t));
    OneStep(start, Append(t, false));
    ThenStep(start, [Append(t, false)], Release(t));
    hide RunFrom;
    AtAgain(s, t, pid, Locked(r, begun), Leaving(r.id, begun));
    assert Step(start, Append(t, false)) == At(s, t, pid, Leaving(r.id, begun)).(lock := Some(t));
    AtAgain(s, t, pid, Leaving(r.id, begun), Closing(r.id));
    AtGone(s, t, pid, Leaving(r.id, begun));
  }

  /** A crash ends the calls and the claims of its process and touches neither the disk nor anybody else. */
  lemma CrashForgets(s: State, pid: Pid)
    ensures var s' := Step(s, Crash(pid));
            && s' == s.(alive := s'.alive, claims := s'.claims, tasks := s'.tasks)
            && s'.alive == s.alive - {pid} && ClaimedBy(s', pid) == {}
            && (forall m: Marker :: m.pid != pid ==> (m in s'.claims <==> m in s.claims))
            && (forall t :: t in s'.tasks <==> t in s.tasks && s.tasks[t].pid != pid)
            && (forall t :: t in s'.tasks ==> s'.tasks[t] == s.tasks[t])
  {
  }

  /** A lock is broken exactly if its holder is gone. */
  lemma BreakLockIff(s: State)
    ensures Step(s, BreakLock) == if s.lock.Some? && s.lock.value !in s.tasks then s.(lock := None) else s
  {
  }

  // ----- whole calls ------------------------------------------------------------------------------------------------

  /** The steps of a begin. */
  function BeginSteps(t: TaskId, pid: Pid, id: Id, input: BeginInput, ts: Timestamp, preceding: Option<Record>): seq<Action> {
    [StartBegin(t, pid, id, input)] + [Publish(t, true)]
    + (Writes(t, |BeginWrites(id, input)|)
       + ([Draft(t, ts, preceding)]
          + ([Acquire(t), Append(t, true), Release(t)] + [Unclaim(t)] + [Retract(t, true)])))
  }

  /** Nothing is left of an undisturbed begin but its blobs and its line: what the journal's own begin leaves. */
  lemma SoloBegin(s: State, t: TaskId, pid: Pid, id: Id, input: BeginInput, ts: Timestamp, preceding: Option<Record>)
    requires CanStart(s, t, pid) && s.lock == None && id !in s.given && MayPrecede(s, preceding)
    requires Marker(id, pid) !in s.claims && Marker(id, pid) !in s.markers
    ensures RunFrom(s, BeginSteps(t, pid, id, input, ts, preceding))
         == s.(index := s.index + [Rec(BeginRecord(id, ts, input, preceding))], blobs := WriteAll(s.blobs, BeginWrites(id, input)),
               given := s.given[id := input], landed := s.landed + {id})
  {
    hide RunFrom, BeginWrites, BeginRecord, WriteAll, Writes, Yield;
    var n, m := |BeginWrites(id, input)|, Marker(id, pid);
    var a, b := [StartBegin(t, pid, id, input)] + [Publish(t, true)], Writes(t, n);
    var c := [Acquire(t), Append(t, true), Release(t)] + [Unclaim(t)] + [Retract(t, true)];
    var d := [Draft(t, ts, preceding)];
    var claimed := s.(given := s.given[id := input], claims := s.claims + {m}, markers := s.markers + {m});
    var written := claimed.(blobs := WriteAll(s.blobs, BeginWrites(id, input)));
    FromConcat(s, a, b + (d + c));
    BeginStarts(s, t, pid, id, input, true);
    FromConcat(RunFrom(s, a), b, d + c);
    BeginWritesAll(claimed, t, pid, id, input, n);
    assert BeginWrites(id, input)[..n] == BeginWrites(id, input);
    var s1 := At(written, t, pid, Writing(id, input, n));
    assert RunFrom(RunFrom(s, a), b) == s1;
    FromConcat(s1, d, c);
    OneStep(s1, Draft(t, ts, preceding));
    DraftStep(written, t, pid, id, input, ts, preceding);
    var r := BeginRecord(id, ts, input, preceding);
    hide Step, At;
    BeginLands(written, t, pid, r);
    assert claimed.claims - {m} == s.claims && claimed.markers - {m} == s.markers;
  }

  lemma OneStep(s: State, a: Action)
    ensures RunFrom(s, [a]) == Step(s, a)
  {
    hide Step;
    assert [a][..0] == [];
  }

  lemma StartBeginStep(s: State, t: TaskId, pid: Pid, id: Id, input: BeginInput)
    requires CanStart(s, t, pid) && id !in s.given
    ensures Step(s, StartBegin(t, pid, id, input))
         == At(s.(given := s.given[id := input], claims := s.claims + {Marker(id, pid)}), t, pid, Claimed(id, input))
  {
  }

  lemma PublishStep(s: State, t: TaskId, pid: Pid, id: Id, input: BeginInput, ok: bool)
    ensures Step(At(s, t, pid, Claimed(id, input)), Publish(t, ok))
         == At(s.(markers := if ok then s.markers + {Marker(id, pid)} else s.markers), t, pid, Writing(id, input, 0))
  {
    AtAgain(s, t, pid, Claimed(id, input), Writing(id, input, 0));
  }

  lemma BeginStarts(s: State, t: TaskId, pid: Pid, id: Id, input: BeginInput, ok: bool)
    requires CanStart(s, t, pid) && id !in s.given
    ensures var m := Marker(id, pid);
            RunFrom(s, [StartBegin(t, pid, id, input)] + [Publish(t, ok)])
            == At(s.(given := s.given[id := input], claims := s.claims + {m}, markers := if ok then s.markers + {m} else s.markers),
                  t, pid, Writing(id, input, 0))
  {
    OneStep(s, StartBegin(t, pid, id, input));
    ThenStep(s, [StartBegin(t, pid, id, input)], Publish(t, ok));
    hide RunFrom, Step, At;
    StartBeginStep(s, t, pid, id, input);
    PublishStep(s.(given := s.given[id := input], claims := s.claims + {Marker(id, pid)}), t, pid, id, input, ok);
  }

  lemma DraftStep(s: State, t: TaskId, pid: Pid, id: Id, input: BeginInput, ts: Timestamp, preceding: Option<Record>)
    requires MayPrecede(s, preceding)
    ensures Step(At(s, t, pid, Writing(id, input, |BeginWrites(id, input)|)), Draft(t, ts, preceding))
         == At(s, t, pid, Queued(BeginRecord(id, ts, input, preceding), true))
  {
    hide BeginWrites, BeginRecord;
    AtAgain(s, t, pid, Writing(id, input, |BeginWrites(id, input)|), Queued(BeginRecord(id, ts, input, preceding), true));
  }

  /** An undisturbed settle leaves its blobs and its line, drafted from the entry as it stands. */
  lemma SoloSettle(s: State, t: TaskId, pid: Pid, id: Id, settling: SettleInput)
    requires CanStart(s, t, pid) && s.lock == None && !settling.outcome.Pending? && Yield(s.index, id).Some?
    requires IsEntry(Yield(s.index, id).value)
    ensures var e := Yield(s.index, id).value;
            RunFrom(s, [StartSettle(t, pid, id, settling)] + (Writes(t, |SettleWrites(e, settling)|)
                       + ([DraftSettle(t)] + [Acquire(t), Append(t, true), Release(t)])))
            == s.(index := s.index + [Rec(SettleRecord(e, settling))], blobs := WriteAll(s.blobs, SettleWrites(e, settling)))
  {
    hide RunFrom, SettleWrites, SettleRecord, WriteAll, Writes, Yield;
    var e := Yield(s.index, id).value;
    var n := |SettleWrites(e, settling)|;
    var a, b, d, c := [StartSettle(t, pid, id, settling)], Writes(t, n), [DraftSettle(t)], [Acquire(t), Append(t, true), Release(t)];
    FromConcat(s, a, b + (d + c));
    OneStep(s, StartSettle(t, pid, id, settling));
    assert RunFrom(s, a) == At(s, t, pid, Settling(e, settling, 0));
    FromConcat(RunFrom(s, a), b, d + c);
    SettleWritesAll(s, t, pid, e, settling, n);
    assert SettleWrites(e, settling)[..n] == SettleWrites(e, settling);
    var written := s.(blobs := WriteAll(s.blobs, SettleWrites(e, settling)));
    var s1 := At(written, t, pid, Settling(e, settling, n));
    assert RunFrom(RunFrom(s, a), b) == s1;
    FromConcat(s1, d, c);
    OneStep(s1, DraftSettle(t));
    SettleDraftStep(written, t, pid, e, settling);
    hide Step, At;
    PatchLands(written, t, pid, SettleRecord(e, settling));
  }

  lemma SettleDraftStep(s: State, t: TaskId, pid: Pid, e: Record, settling: SettleInput)
    requires IsEntry(e)
    ensures Step(At(s, t, pid, Settling(e, settling, |SettleWrites(e, settling)|)), DraftSettle(t))
         == At(s, t, pid, Queued(SettleRecord(e, settling), false))
  {
    hide SettleWrites, SettleRecord;
    AtAgain(s, t, pid, Settling(e, settling, |SettleWrites(e, settling)|), Queued(SettleRecord(e, settling), false));
  }

  /** An undisturbed reconcile or markUndone leaves its line. */
  lemma SoloNote(s: State, t: TaskId, pid: Pid, id: Id, note: Note)
    requires CanStart(s, t, pid) && s.lock == None && Yield(s.index, id).Some?
    ensures RunFrom(s, [StartNote(t, pid, id, note)] + [Acquire(t), Append(t, true), Release(t)])
         == s.(index := s.index + [Rec(NoteRecord(id, note))])
  {
    hide RunFrom, NoteRecord, Yield;
    var r := NoteRecord(id, note);
    FromConcat(s, [StartNote(t, pid, id, note)], [Acquire(t), Append(t, true), Release(t)]);
    OneStep(s, StartNote(t, pid, id, note));
    assert Step(s, StartNote(t, pid, id, note)) == At(s, t, pid, Queued(r, false));
    hide Step, At;
    PatchLands(s, t, pid, r);
  }

  // ----- a whole prune ------------------------------------------------------------------------------------------------

  /** A call inside the lock. */
  function Held(s: State, t: TaskId, pid: Pid, stage: Stage): State {
    At(s, t, pid, stage).(lock := Some(t))
  }

  /** What retention leaves of the index: the same if nothing goes, else the kept entries, oldest first. */
  function RetainedIndex(index: seq<Line>, ordered: seq<Record>, cutoff: Option<int>, maxEntries: nat, inFlight: set<Id>): seq<Line> {
    if Dropped(ordered, cutoff, maxEntries, inFlight) == [] then index
    else Rewritten(Reverse(Kept(ordered, cutoff, maxEntries, inFlight)))
  }

  lemma PruneLocks(s: State, t: TaskId, pid: Pid)
    requires CanStart(s, t, pid) && s.lock == None
    ensures RunFrom(s, [StartPrune(t, pid)] + [Acquire(t)]) == Held(s, t, pid, PruneRead)
  {
    hide RunFrom, Step, At, Held;
    StartPruneStep(s, t, pid);
    OneStep(s, StartPrune(t, pid));
    ThenStep(s, [StartPrune(t, pid)], Acquire(t));
    PruneAcquires(s, t, pid);
  }

  lemma StartPruneStep(s: State, t: TaskId, pid: Pid)
    requires CanStart(s, t, pid)
    ensures Step(s, StartPrune(t, pid)) == At(s, t, pid, PruneQueued)
  {
  }

  lemma PruneAcquires(s: State, t: TaskId, pid: Pid)
    requires s.lock == None
    ensures Step(At(s, t, pid, PruneQueued), Acquire(t)) == Held(s, t, pid, PruneRead)
  {
    AtAgain(s, t, pid, PruneQueued, PruneRead);
  }

  lemma DecideStep(s: State, t: TaskId, pid: Pid, ordered: seq<Record>, cutoff: Option<int>, maxEntries: nat, keep: seq<Record>)
    requires Sorted(Entries(s.index), ordered) && ordered != [] && keep == Kept(ordered, cutoff, maxEntries, ClaimedBy(s, pid))
    ensures Step(Held(s, t, pid, PruneRead), Decide(t, ordered, cutoff, maxEntries))
         == Held(s, t, pid, if Dropped(ordered, cutoff, maxEntries, ClaimedBy(s, pid)) == [] then SweepStart(KeptIds(keep)) else PruneKept(Reverse(keep)))
  {
    hide Sorted, Entries, Kept, Dropped, KeptIds, Reverse;
    assert ClaimedBy(Held(s, t, pid, PruneRead), pid) == ClaimedBy(s, pid);
    AtAgain(s, t, pid, PruneRead, SweepStart(KeptIds(keep)));
    AtAgain(s, t, pid, PruneRead, PruneKept(Reverse(keep)));
  }

  lemma RenameStep(s: State, t: TaskId, pid: Pid, keep: seq<Record>)
    ensures Step(Held(s, t, pid, PruneKept(keep)), Rename(t)) == Held(s.(index := Rewritten(keep)), t, pid, SweepStart(KeptIds(keep)))
  {
    hide KeptIds, Rewritten;
    AtAgain(s, t, pid, PruneKept(keep), SweepStart(KeptIds(keep)));
  }

  lemma Retains(s: State, t: TaskId, pid: Pid, ordered: seq<Record>, cutoff: Option<int>, maxEntries: nat) returns (actions: seq<Action>)
    requires Sorted(Entries(s.index), ordered) && ordered != []
    ensures var inFlight := ClaimedBy(s, pid);
            RunFrom(Held(s, t, pid, PruneRead), actions)
            == Held(s.(index := RetainedIndex(s.index, ordered, cutoff, maxEntries, inFlight)), t, pid,
                    SweepStart(KeptIds(Kept(ordered, cutoff, maxEntries, inFlight))))
  {
    hide Sorted, Entries, Kept, Dropped, KeptIds, Rewritten, Reverse, Held, Step, RunFrom;
    var inFlight, decide := ClaimedBy(s, pid), Decide(t, ordered, cutoff, maxEntries);
    var keep := Kept(ordered, cutoff, maxEntries, inFlight);
    OneStep(Held(s, t, pid, PruneRead), decide);
    DecideStep(s, t, pid, ordered, cutoff, maxEntries, keep);
    if Dropped(ordered, cutoff, maxEntries, inFlight) == [] {
      actions := [decide];
      assert s.(index := s.index) == s;
    } else {
      actions := [decide] + [Rename(t)];
      ThenStep(Held(s, t, pid, PruneRead), [decide], Rename(t));
      SameIds(keep);
      RenameStep(s, t, pid, Reverse(keep));
    }
  }

  lemma Lists(s: State, t: TaskId, pid: Pid, surviving: set<Id>)
    ensures RunFrom(Held(s, t, pid, SweepStart(surviving)), [ListBlobs(t)] + [ListMarkers(t)])
         == Reading(s, t, pid, surviving, s.blobs.Keys, s.markers, {}, {}, {})
  {
    OneStep(Held(s, t, pid, SweepStart(surviving)), ListBlobs(t));
    ThenStep(Held(s, t, pid, SweepStart(surviving)), [ListBlobs(t)], ListMarkers(t));
    hide RunFrom;
    ListBlobsStep(s, t, pid, surviving);
    ListMarkersStep(s, t, pid, surviving);
    hide Step, Held, Reading;
  }

  lemma ListBlobsStep(s: State, t: TaskId, pid: Pid, surviving: set<Id>)
    ensures Step(Held(s, t, pid, SweepStart(surviving)), ListBlobs(t)) == Held(s, t, pid, SweepListed(surviving, s.blobs.Keys))
  {
    AtAgain(s, t, pid, SweepStart(surviving), SweepListed(surviving, s.blobs.Keys));
  }

  lemma ListMarkersStep(s: State, t: TaskId, pid: Pid, surviving: set<Id>)
    ensures Step(Held(s, t, pid, SweepListed(surviving, s.blobs.Keys)), ListMarkers(t))
         == Reading(s, t, pid, surviving, s.blobs.Keys, s.markers, {}, {}, {})
  {
    AtAgain(s, t, pid, SweepListed(surviving, s.blobs.Keys), SweepRegistry(surviving, s.blobs.Keys, s.markers, {}, {}, {}));
  }

  /** Markers past their grace period whose process is not this one and is gone. */
  function Dead(s: State, pid: Pid, aged: set<Marker>, markers: set<Marker>): set<Marker> {
    set m | m in markers && m.pid != pid && m in aged && m.pid !in s.alive
  }

  function IdsOfMarkers(markers: set<Marker>): set<Id> {
    set m | m in markers :: m.id
  }

  /** A sweep in the middle of the registry. */
  function Reading(s: State, t: TaskId, pid: Pid, surviving: set<Id>, files: set<BlobName>, unread: set<Marker>, suspects: set<Marker>,
                   doomed: set<Marker>, registered: set<Id>): State {
    Held(s, t, pid, SweepRegistry(surviving, files, unread, suspects, doomed, registered))
  }

  lemma StatStep(s: State, t: TaskId, pid: Pid, surviving: set<Id>, files: set<BlobName>, unread: set<Marker>, registered: set<Id>, m: Marker, aged: bool)
    requires m in unread && m in s.markers
    ensures Step(Reading(s, t, pid, surviving, files, unread, {}, {}, registered), StatMarker(t, m, aged))
         == if m.pid != pid && aged then Reading(s, t, pid, surviving, files, unread - {m}, {m}, {}, registered)
            else Reading(s, t, pid, surviving, files, unread - {m}, {}, {}, registered + {m.id})
  {
    var from := SweepRegistry(surviving, files, unread, {}, {}, registered);
    assert {} + {m} == {m};
    AtAgain(s, t, pid, from, SweepRegistry(surviving, files, unread - {m}, {m}, {}, registered));
    AtAgain(s, t, pid, from, SweepRegistry(surviving, files, unread - {m}, {}, {}, registered + {m.id}));
  }

  lemma ProbeStep(s: State, t: TaskId, pid: Pid, surviving: set<Id>, files: set<BlobName>, unread: set<Marker>, registered: set<Id>, m: Marker)
    ensures Step(Reading(s, t, pid, surviving, files, unread, {m}, {}, registered), ProbeMarker(t, m))
         == if m.pid in s.alive then Reading(s, t, pid, surviving, files, unread, {}, {}, registered + {m.id})
            else Reading(s, t, pid, surviving, files, unread, {}, {m}, registered)
  {
    var from := SweepRegistry(surviving, files, unread, {m}, {}, registered);
    assert {} + {m} == {m} && {m} - {m} == {};
    AtAgain(s, t, pid, from, SweepRegistry(surviving, files, unread, {}, {m}, registered));
    AtAgain(s, t, pid, from, SweepRegistry(surviving, files, unread, {}, {}, registered + {m.id}));
  }

  lemma ReapStep(s: State, t: TaskId, pid: Pid, surviving: set<Id>, files: set<BlobName>, unread: set<Marker>, registered: set<Id>, m: Marker)
    ensures Step(Reading(s, t, pid, surviving, files, unread, {}, {m}, registered), ReapMarker(t, m, true))
         == Reading(s.(markers := s.markers - {m}), t, pid, surviving, files, unread, {}, {}, registered)
  {
    assert {m} - {m} == {};
    AtAgain(s, t, pid, SweepRegistry(surviving, files, unread, {}, {m}, registered), SweepRegistry(surviving, files, unread, {}, {}, registered));
  }

  /** One marker: it protects its id, unless it is old, another process's, and that process is gone; then it is reaped. */
  lemma ReadsMarker(s: State, t: TaskId, pid: Pid, surviving: set<Id>, files: set<BlobName>, unread: set<Marker>, registered: set<Id>,
                    aged: set<Marker>, m: Marker) returns (actions: seq<Action>)
    requires m in unread && m in s.markers
    ensures RunFrom(Reading(s, t, pid, surviving, files, unread, {}, {}, registered), actions)
         == if m in Dead(s, pid, aged, unread) then Reading(s.(markers := s.markers - {m}), t, pid, surviving, files, unread - {m}, {}, {}, registered)
            else Reading(s, t, pid, surviving, files, unread - {m}, {}, {}, registered + {m.id})
  {
    hide RunFrom, Step, Reading;
    var start := Reading(s, t, pid, surviving, files, unread, {}, {}, registered);
    var stat, probe, reap := StatMarker(t, m, m in aged), ProbeMarker(t, m), ReapMarker(t, m, true);
    OneStep(start, stat);
    ThenStep(start, [stat], probe);
    ThenStep(start, [stat] + [probe], reap);
    StatStep(s, t, pid, surviving, files, unread, registered, m, m in aged);
    ProbeStep(s, t, pid, surviving, files, unread - {m}, registered, m);
    ReapStep(s, t, pid, surviving, files, unread - {m}, registered, m);
    actions := if m.pid == pid || m !in aged then [stat] else if m.pid in s.alive then [stat] + [probe] else [stat] + [probe] + [reap];
  }

  lemma DeadWithout(s: State, pid: Pid, aged: set<Marker>, unread: set<Marker>, m: Marker, registered: set<Id>)
    requires m in unread
    ensures var dead, later := Dead(s, pid, aged, unread), Dead(s, pid, aged, unread - {m});
            && (m in dead ==> dead == later + {m} && (unread - {m}) - later == unread - dead)
            && (m !in dead ==> later == dead)
            && (m !in dead ==> registered + {m.id} + IdsOfMarkers((unread - {m}) - dead) == registered + IdsOfMarkers(unread - dead))
  {
    var dead, later := Dead(s, pid, aged, unread), Dead(s, pid, aged, unread - {m});
    if m in dead {
      assert dead == later + {m};
    } else {
      assert later == dead;
      assert unread - dead == ((unread - {m}) - dead) + {m};
    }
  }

  /** Marker by marker, the registry is read and the dead are reaped. */
  lemma {:induction false} ReadsRegistry(s: State, t: TaskId, pid: Pid, surviving: set<Id>, files: set<BlobName>, unread: set<Marker>,
                                         registered: set<Id>, aged: set<Marker>) returns (actions: seq<Action>)
    requires unread <= s.markers
    ensures var dead := Dead(s, pid, aged, unread);
            RunFrom(Reading(s, t, pid, surviving, files, unread, {}, {}, registered), actions)
            == Reading(s.(markers := s.markers - dead), t, pid, surviving, files, {}, {}, {}, registered + IdsOfMarkers(unread - dead))
    decreases |unread|
  {
    if unread == {} {
      actions := [];
      assert Dead(s, pid, aged, unread) == {} && IdsOfMarkers({}) == {} && registered + {} == registered;
      assert s.(markers := s.markers - {}) == s;
    } else {
      hide RunFrom, Reading, Dead, IdsOfMarkers;
      var m :| m in unread;
      var start := Reading(s, t, pid, surviving, files, unread, {}, {}, registered);
      var first := ReadsMarker(s, t, pid, surviving, files, unread, registered, aged, m);
      var dead, later := Dead(s, pid, aged, unread), Dead(s, pid, aged, unread - {m});
      DeadWithout(s, pid, aged, unread, m, registered);
      var rest;
      if m in dead {
        var s' := s.(markers := s.markers - {m});
        rest := ReadsRegistry(s', t, pid, surviving, files, unread - {m}, registered, aged);
        SameDeadOf(s, s', pid, aged, unread - {m});
        assert s'.markers - later == s.markers - dead;
      } else {
        rest := ReadsRegistry(s, t, pid, surviving, files, unread - {m}, registered + {m.id}, aged);
      }
      actions := first + rest;
      FromConcat(start, first, rest);
    }
  }

  lemma SameDeadOf(s: State, s': State, pid: Pid, aged: set<Marker>, markers: set<Marker>)
    requires s'.alive == s.alive
    ensures Dead(s', pid, aged, markers) == Dead(s, pid, aged, markers)
  {
  }

  /** The files a sweep takes. */
  function Orphans(s: State, pid: Pid, files: set<BlobName>, safe: set<Id>): set<BlobName> {
    set f | f in files && Sweepable(f, safe) && Marker(f.id, pid) !in s.claims
  }

  lemma {:induction false} Unlinks(s: State, t: TaskId, pid: Pid, surviving: set<Id>, files: set<BlobName>, registered: set<Id>, orphans: set<BlobName>)
    returns (actions: seq<Action>)
    requires orphans <= Orphans(s, pid, files, surviving + registered)
    ensures RunFrom(Held(s, t, pid, Sweeping(surviving, files, registered)), actions)
         == Held(s.(blobs := s.blobs - orphans), t, pid, Sweeping(surviving, files - orphans, registered))
    decreases |orphans|
  {
    if orphans == {} {
      actions := [];
      assert s.blobs - {} == s.blobs && s.(blobs := s.blobs) == s && files - {} == files;
    } else {
      var f :| f in orphans;
      var start, s' := Held(s, t, pid, Sweeping(surviving, files, registered)), s.(blobs := s.blobs - {f});
      OneStep(start, Unlink(t, f));
      UnlinkStep(s, t, pid, surviving, files, registered, f);
      hide RunFrom, Step, Held, Sweepable;
      var rest := Unlinks(s', t, pid, surviving, files - {f}, registered, orphans - {f});
      assert s'.blobs - (orphans - {f}) == s.blobs - orphans;
      assert (files - {f}) - (orphans - {f}) == files - orphans;
      actions := [Unlink(t, f)] + rest;
      FromConcat(start, [Unlink(t, f)], rest);
    }
  }

  lemma UnlinkStep(s: State, t: TaskId, pid: Pid, surviving: set<Id>, files: set<BlobName>, registered: set<Id>, f: BlobName)
    requires f in Orphans(s, pid, files, surviving + registered)
    ensures Step(Held(s, t, pid, Sweeping(surviving, files, registered)), Unlink(t, f))
         == Held(s.(blobs := s.blobs - {f}), t, pid, Sweeping(surviving, files - {f}, registered))
  {
    hide Sweepable;
    AtAgain(s, t, pid, Sweeping(surviving, files, registered), Sweeping(surviving, files - {f}, registered));
  }

  lemma ClaimedIff(s: State, pid: Pid, id: Id)
    ensures id in ClaimedBy(s, pid) <==> Marker(id, pid) in s.claims
  {
    if id in ClaimedBy(s, pid) {
      var m :| m in s.claims && m.pid == pid && m.id == id;
      assert m == Marker(id, pid);
    }
  }

  lemma SweptIs(s: State, pid: Pid, safe: set<Id>)
    ensures s.blobs - Orphans(s, pid, s.blobs.Keys, safe) == Swept(s.blobs, safe + ClaimedBy(s, pid))
  {
    forall f | f in s.blobs ensures f in Orphans(s, pid, s.blobs.Keys, safe) <==> Sweepable(f, safe + ClaimedBy(s, pid)) {
      ClaimedIff(s, pid, f.id);
    }
  }

  lemma Sweeps(s: State, t: TaskId, pid: Pid, surviving: set<Id>, aged: set<Marker>) returns (actions: seq<Action>)
    requires t !in s.tasks && s.lock == None
    ensures var dead := Dead(s, pid, aged, s.markers);
            RunFrom(Held(s, t, pid, SweepStart(surviving)), actions)
            == s.(markers := s.markers - dead, blobs := Swept(s.blobs, surviving + IdsOfMarkers(s.markers - dead) + ClaimedBy(s, pid)))
  {
    var dead := Dead(s, pid, aged, s.markers);
    var registered := IdsOfMarkers(s.markers - dead);
    var start := Held(s, t, pid, SweepStart(surviving));
    hide RunFrom, Step, Dead, IdsOfMarkers, Orphans, Held, Reading;
    var a := [ListBlobs(t)] + [ListMarkers(t)];
    Lists(s, t, pid, surviving);
    var b := ReadsRegistry(s, t, pid, surviving, s.blobs.Keys, s.markers, {}, aged);
    assert {} + registered == registered;
    var s1 := s.(markers := s.markers - dead);
    var read := Reading(s1, t, pid, surviving, s.blobs.Keys, {}, {}, {}, registered);
    EndsRegistry(s1, t, pid, surviving, s.blobs.Keys, registered);
    var orphans := Orphans(s1, pid, s1.blobs.Keys, surviving + registered);
    var c := Unlinks(s1, t, pid, surviving, s1.blobs.Keys, registered, orphans);
    SweptIs(s1, pid, surviving + registered);
    var s2 := s1.(blobs := s1.blobs - orphans);
    SweepEnds(s2, t, pid, Sweeping(surviving, s1.blobs.Keys - orphans, registered));
    actions := a + (b + ([EndRegistry(t)] + (c + [Release(t)])));
    FromConcat(start, a, b + ([EndRegistry(t)] + (c + [Release(t)])));
    FromConcat(RunFrom(start, a), b, [EndRegistry(t)] + (c + [Release(t)]));
    FromConcat(read, [EndRegistry(t)], c + [Release(t)]);
    FromConcat(RunFrom(read, [EndRegistry(t)]), c, [Release(t)]);
    assert ClaimedBy(s1, pid) == ClaimedBy(s, pid);
  }

  lemma EndsRegistry(s: State, t: TaskId, pid: Pid, surviving: set<Id>, files: set<BlobName>, registered: set<Id>)
    ensures RunFrom(Reading(s, t, pid, surviving, files, {}, {}, {}, registered), [EndRegistry(t)])
         == Held(s, t, pid, Sweeping(surviving, files, registered))
  {
    OneStep(Reading(s, t, pid, surviving, files, {}, {}, {}, registered), EndRegistry(t));
    hide RunFrom;
    AtAgain(s, t, pid, SweepRegistry(surviving, files, {}, {}, {}, registered), Sweeping(surviving, files, registered));
  }

  lemma SweepEnds(s: State, t: TaskId, pid: Pid, stage: Stage)
    requires t !in s.tasks && s.lock == None && stage.Sweeping?
    ensures RunFrom(Held(s, t, pid, stage), [Release(t)]) == s
  {
    OneStep(Held(s, t, pid, stage), Release(t));
    hide RunFrom;
    AtGone(s, t, pid, stage);
  }

  /**
    An undisturbed prune applies retention to the entries and sweeps, sparing what survives, what this
    process claims and what the registry protects; of the registry it takes the markers of the dead.
   */
  lemma SoloPrune(s: State, t: TaskId, pid: Pid, ordered: seq<Record>, cutoff: Option<int>, maxEntries: nat, aged: set<Marker>)
    returns (actions: seq<Action>)
    requires CanStart(s, t, pid) && s.lock == None && Sorted(Entries(s.index), ordered) && ordered != []
    ensures var inFlight, dead := ClaimedBy(s, pid), Dead(s, pid, aged, s.markers);
            RunFrom(s, actions)
            == s.(index := RetainedIndex(s.index, ordered, cutoff, maxEntries, inFlight), markers := s.markers - dead,
                  blobs := Swept(s.blobs, KeptIds(Kept(ordered, cutoff, maxEntries, inFlight)) + IdsOfMarkers(s.markers - dead) + inFlight))
  {
    hide RunFrom, Step, Sorted, Entries, Kept, KeptIds, RetainedIndex, Dead, Held, Swept, IdsOfMarkers;
    var inFlight := ClaimedBy(s, pid);
    var kept := s.(index := RetainedIndex(s.index, ordered, cutoff, maxEntries, inFlight));
    var a := [StartPrune(t, pid)] + [Acquire(t)];
    PruneLocks(s, t, pid);
    var b := Retains(s, t, pid, ordered, cutoff, maxEntries);
    var c := Sweeps(kept, t, pid, KeptIds(Kept(ordered, cutoff, maxEntries, inFlight)), aged);
    assert ClaimedBy(kept, pid) == inFlight;
    SameDeadOf(s, kept, pid, aged, s.markers);
    actions := a + (b + c);
    FromConcat(s, a, b + c);
    FromConcat(RunFrom(s, a), b, c);
  }

  /** In the words of the one-process journal: what an undisturbed prune leaves is what its prune leaves. */
  lemma SoloPruneIsPrune(s: State, pid: Pid, ordered: seq<Record>, cutoff: Option<int>, maxEntries: nat, registered: set<Id>, blobs: map<BlobName, string>)
    requires Sorted(Entries(s.index), ordered) && ordered != []
    requires var inFlight := ClaimedBy(s, pid); blobs == Swept(s.blobs, KeptIds(Kept(ordered, cutoff, maxEntries, inFlight)) + registered + inFlight)
    ensures var inFlight := ClaimedBy(s, pid);
            Journals.PrunedTo(s.index, s.blobs, RetainedIndex(s.index, ordered, cutoff, maxEntries, inFlight), blobs,
                              ordered, cutoff, maxEntries, inFlight, registered)
  {
    hide Yield, Kept, Dropped, KeptIds, Rewritten, Reverse, Selection, Swept;
    var inFlight := ClaimedBy(s, pid);
    var keep := Kept(ordered, cutoff, maxEntries, inFlight);
    assert ordered[0] in ordered && ordered[0].id in Entries(s.index);
    RetainedSelection(s.index, ordered, cutoff, maxEntries, inFlight);
    hide Sorted;
    assert KeptIds(keep) + registered + inFlight == KeptIds(keep) + inFlight + registered;
    if Dropped(ordered, cutoff, maxEntries, inFlight) == [] {
      NothingDropped(s.index, ordered, cutoff, maxEntries, inFlight);
    }
    hide Entries;
    forall id
      ensures Yield(RetainedIndex(s.index, ordered, cutoff, maxEntries, inFlight), id) == if id in KeptIds(keep) then Yield(s.index, id) else None
    {
      EntriesYield(s.index, id);
      RewrittenYields(s.index, Reverse(keep), id);
    }
  }
}
