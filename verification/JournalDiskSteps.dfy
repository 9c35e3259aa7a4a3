/** The steps of the journal protocol that write blobs, append, replace the index and unlink. */
module JournalDiskSteps {
  import opened Options
  import opened JournalLog
  import opened JournalWrites
  import opened JournalSoundness
  import opened JournalProtocol
  import opened JournalInvariant

  // ----- steps that change index or blobs ---------------------------------------------------------------------------

  /** A stage change nobody else can notice. */
  ghost predicate Calm(was: Stage, now: Stage) {
    && Owned(now) == Owned(was)
    && (Unlanded(now).None? || Unlanded(now) == Unlanded(was))
    && Listed(now) <= Listed(was) && Doomed(now) <= Doomed(was)
    && (now == was || Listed(now) == {} || (was.Sweeping? && now.Sweeping? && now.registered == was.registered))
  }

  ghost predicate AllCalm(s: State, s': State) {
    && s'.markers == s.markers
    && s'.tasks.Keys == s.tasks.Keys
    && forall u :: u in s.tasks ==> s'.tasks[u].pid == s.tasks[u].pid && Calm(s.tasks[u].stage, s'.tasks[u].stage)
  }

  lemma ApartStays(s: State, s': State)
    requires Inv(s) && AllCalm(s, s')
    ensures forall t, u :: t in s'.tasks && u in s'.tasks && t != u ==> Apart(s', t, u)
  {
    hide StoreOk, TaskOk;
    forall t, u | t in s'.tasks && u in s'.tasks && t != u ensures Apart(s', t, u) {
      assert Apart(s, t, u);
    }
  }

  lemma WriteStore(s: State, s': State, w: Write)
    requires StoreOk(s) && s'.blobs == s.blobs[w.0 := w.1]
    requires s'.index == s.index && s'.given == s.given && s'.landed == s.landed
    requires w.0.id in s.given && (w.0.which.Before? ==> w in BeginWrites(w.0.id, s.given[w.0.id]))
    ensures StoreOk(s')
  {
    hide Yield, Whole, OwnRefs, Refs, BeginWrites, IdsOf;
    forall id ensures ImagesOnDisk(s', id) {
      assert ImagesOnDisk(s, id);
    }
    forall b ensures BytesAsGiven(s', b) {
      assert BytesAsGiven(s, b);
    }
  }

  lemma WriteOther(s: State, s': State, w: Write, u: TaskId)
    requires u in s.tasks && TaskOk(s, u) && s'.blobs == s.blobs[w.0 := w.1]
    requires s' == s.(blobs := s'.blobs, tasks := s'.tasks) && u in s'.tasks && s'.tasks[u] == s.tasks[u]
    requires s.tasks[u].stage.Claimed? ==> s.tasks[u].stage.id != w.0.id
    ensures TaskOk(s', u)
  {
    hide Yield, OwnRefs, Refs, BeginWrites, SettleWrites, Selection;
  }

  lemma WrittenGrows(writes: seq<Write>, done: nat)
    requires done < |writes|
    ensures Written(writes, done + 1) == Written(writes, done) + {writes[done].0}
  {
    NamesConcat(writes[..done], [writes[done]]);
    assert writes[..done + 1] == writes[..done] + [writes[done]];
    assert Names([writes[done]]) == {writes[done].0} by {
      assert writes[done] in [writes[done]];
    }
  }

  /** A begin writes under an id nobody else owns, a settle under one that landed. */
  lemma WriteMisses(s: State, t: TaskId, u: TaskId, id: Id)
    requires Inv(s) && t in s.tasks && u in s.tasks && u != t && s.tasks[u].stage.Claimed?
    requires Owned(s.tasks[t].stage) == Some(id) || id in s.landed
    ensures s.tasks[u].stage.id != id
  {
    hide StoreOk;
    assert TaskOk(s, u) && Apart(s, u, t);
  }

  lemma WriteKeeps(s: State, t: TaskId, w: Write, stage: Stage)
    requires Inv(s) && t in s.tasks && w.0.id in s.given
    requires w.0.which.Before? ==> w in BeginWrites(w.0.id, s.given[w.0.id])
    requires Owned(s.tasks[t].stage) == Some(w.0.id) || w.0.id in s.landed
    requires var s' := Goto(s, t, stage).(blobs := s.blobs[w.0 := w.1]);
             TaskOk(s', t) && Calm(s.tasks[t].stage, stage)
    ensures Inv(Goto(s, t, stage).(blobs := s.blobs[w.0 := w.1]))
  {
    var s' := Goto(s, t, stage).(blobs := s.blobs[w.0 := w.1]);
    hide StoreOk, TaskOk, Apart, Owned, Unlanded, Listed, BeginWrites;
    WriteStore(s, s', w);
    forall u | u in s'.tasks ensures TaskOk(s', u) {
      if u != t {
        if s.tasks[u].stage.Claimed? {
          WriteMisses(s, t, u, w.0.id);
        }
        WriteOther(s, s', w, u);
      }
    }
    ApartStays(s, s');
  }

  lemma BeginWriteOwn(s: State, t: TaskId, id: Id, input: BeginInput, done: nat, w: Write)
    requires t in s.tasks && TaskOk(s, t) && s.tasks[t].stage == Writing(id, input, done)
    requires done < |BeginWrites(id, input)| && w == BeginWrites(id, input)[done]
    ensures w.0.id == id && id in s.given && s.given[id] == input
    ensures TaskOk(Goto(s, t, Writing(id, input, done + 1)).(blobs := s.blobs[w.0 := w.1]), t)
  {
    hide Yield, Refs, BeginWrites, Written;
    assert w.0 in Names(BeginWrites(id, input)) by {
      assert w in BeginWrites(id, input);
    }
    BeginNamesItsBlobs(id, Timestamp(0, None), input, None);
    WrittenGrows(BeginWrites(id, input), done);
  }

  lemma SettleWriteOwn(s: State, t: TaskId, existing: Record, settling: SettleInput, done: nat, w: Write)
    requires t in s.tasks && TaskOk(s, t) && s.tasks[t].stage == Settling(existing, settling, done)
    requires done < |SettleWrites(existing, settling)| && w == SettleWrites(existing, settling)[done]
    ensures w.0.id == existing.id && w.0.which.After? && existing.id in s.landed
    ensures TaskOk(Goto(s, t, Settling(existing, settling, done + 1)).(blobs := s.blobs[w.0 := w.1]), t)
  {
    hide Yield, Refs, SettleWrites, Written;
    assert w.0 in Names(SettleWrites(existing, settling)) by {
      assert w in SettleWrites(existing, settling);
    }
    SettleNamesItsBlobs(existing, settling);
    WrittenGrows(SettleWrites(existing, settling), done);
  }

  lemma BeginWriteKeeps(s: State, t: TaskId, id: Id, input: BeginInput, done: nat, w: Write)
    requires Inv(s) && t in s.tasks && s.tasks[t].stage == Writing(id, input, done)
    requires done < |BeginWrites(id, input)| && w == BeginWrites(id, input)[done]
    ensures Inv(Goto(s, t, Writing(id, input, done + 1)).(blobs := s.blobs[w.0 := w.1]))
  {
    assert TaskOk(s, t);
    hide StoreOk, TaskOk, Apart, Inv, BeginWrites;
    BeginWriteOwn(s, t, id, input, done, w);
    assert w in BeginWrites(id, input);
    WriteKeeps(s, t, w, Writing(id, input, done + 1));
  }

  lemma SettleWriteKeeps(s: State, t: TaskId, existing: Record, settling: SettleInput, done: nat, w: Write)
    requires Inv(s) && t in s.tasks && s.tasks[t].stage == Settling(existing, settling, done)
    requires done < |SettleWrites(existing, settling)| && w == SettleWrites(existing, settling)[done]
    ensures Inv(Goto(s, t, Settling(existing, settling, done + 1)).(blobs := s.blobs[w.0 := w.1]))
  {
    assert TaskOk(s, t);
    hide StoreOk, TaskOk, Apart, Inv, SettleWrites;
    SettleWriteOwn(s, t, existing, settling, done, w);
    LandedWasGiven(s, existing.id);
    WriteKeeps(s, t, w, Settling(existing, settling, done + 1));
  }

  lemma WriteBlobKeeps(s: State, t: TaskId)
    requires Inv(s)
    ensures Inv(AfterWrite(s, t))
  {
    hide Inv, BeginWrites, SettleWrites;
    if AfterWrite(s, t) != s {
      match s.tasks[t].stage
      case Writing(id, input, done) => BeginWriteKeeps(s, t, id, input, done, BeginWrites(id, input)[done]);
      case Settling(existing, settling, done) =>
        SettleWriteKeeps(s, t, existing, settling, done, SettleWrites(existing, settling)[done]);
    }
  }

  lemma LandedWasGiven(s: State, id: Id)
    requires Inv(s) && id in s.landed
    ensures id in s.given
  {
  }

  lemma LatestSnoc(lines: seq<Line>, r: Record, id: Id)
    ensures id != r.id ==> Latest(lines + [Rec(r)], id) == Latest(lines, id)
    ensures id == r.id ==>
              Latest(lines + [Rec(r)], id) == Some(if Latest(lines, id).Some? then Merge(Latest(lines, id).value, r) else r)
  {
    hide Merge;
    assert (lines + [Rec(r)])[..|lines|] == lines;
  }

  /** A line can only carry an id that already landed, or begin's own. */
  lemma AppendWhole(s: State, r: Record, begun: bool)
    requires StoreOk(s) && RecordOk(s, r, begun) && (begun ==> r.id !in s.landed)
    ensures Whole(s.index + [Rec(r)])
    ensures forall id :: id in s.landed && Yield(s.index + [Rec(r)], id).Some? ==> Yield(s.index, id).Some?
  {
    hide Refs, OwnRefs, Normalise, BytesAsGiven;
    var lines := s.index + [Rec(r)];
    forall id | Latest(lines, id).Some?
      ensures IsPatch(Latest(lines, id).value) || IsEntry(Latest(lines, id).value)
      ensures id in s.landed && Yield(lines, id).Some? ==> Yield(s.index, id).Some?
    {
      LatestSnoc(s.index, r, id);
      LatestId(s.index, id);
    }
  }

  lemma AppendImages(s: State, r: Record, begun: bool, id: Id)
    requires StoreOk(s) && RecordOk(s, r, begun) && (begun ==> r.id !in s.landed)
    ensures var y := Yield(s.index + [Rec(r)], id); y.Some? ==> Refs(y.value) <= s.blobs.Keys && OwnRefs(y.value)
  {
    hide Whole, Yield, Refs, Merge, BytesAsGiven, IsEntry;
    YieldSnoc(s.index, r, id);
    assert ImagesOnDisk(s, id);
    if id == r.id {
      if begun {
        MergeRefs(r, r);
        YieldIdsOnly(s.index, id);
      } else if Yield(s.index, id).Some? {
        var e := Yield(s.index, id).value;
        YieldIds(s.index, id);
        MergeRefs(e, r);
        MergeRefs(Merge(e, r), r);
        MergedId(e, r);
      } else {
        AppendWhole(s, r, begun);
      }
    }
  }

  lemma MergedId(e: Record, r: Record)
    ensures Normalise(Merge(e, r)).id == r.id
  {
  }

  lemma YieldIdsOnly(lines: seq<Line>, id: Id)
    requires id !in IdsOf(lines)
    ensures Yield(lines, id) == None
  {
    LatestId(lines, id);
  }

  lemma AppendStore(s: State, s': State, r: Record, begun: bool)
    requires StoreOk(s) && RecordOk(s, r, begun) && r.id in s.given && (begun ==> r.id !in s.landed)
    requires s'.index == s.index + [Rec(r)] && s'.landed == (if begun then s.landed + {r.id} else s.landed)
    requires s'.blobs == s.blobs && s'.given == s.given
    ensures StoreOk(s')
  {
    AppendWhole(s, r, begun);
    IdsSnoc(s.index, r);
    assert begun || r.id in s.landed;
    hide Whole, Yield, OwnRefs, Refs, BeginWrites, IdsOf, RecordOk;
    forall id ensures ImagesOnDisk(s', id) {
      AppendImages(s, r, begun, id);
    }
    forall b ensures BytesAsGiven(s', b) {
      assert BytesAsGiven(s, b);
    }
  }

  /** The index changed under the lock of t, and no id came back. */
  lemma IndexOther(s: State, s': State, t: TaskId, u: TaskId)
    requires u in s.tasks && u != t && TaskOk(s, u) && s.lock == Some(t) && u in s'.tasks && s'.tasks[u] == s.tasks[u]
    requires s' == s.(index := s'.index, landed := s'.landed, tasks := s'.tasks) && s.landed <= s'.landed
    requires Unlanded(s.tasks[u].stage).Some? ==> Unlanded(s.tasks[u].stage).value !in s'.landed
    requires forall id :: id in s.landed && Yield(s'.index, id).Some? ==> Yield(s.index, id).Some?
    ensures TaskOk(s', u)
  {
    hide Yield, OwnRefs, Refs, BeginWrites, SettleWrites, Selection;
  }

  lemma AppendKeeps(s: State, t: TaskId)
    requires Inv(s)
    ensures Inv(AfterAppend(s, t, true))
  {
    hide Yield, OwnRefs, Refs, BeginWrites, SettleWrites, Selection, StoreOk, Apart;
    var s' := AfterAppend(s, t, true);
    if s' != s {
      assert TaskOk(s, t);
      var Locked(r, begun) := s.tasks[t].stage;
      if !begun {
        LandedWasGiven(s, r.id);
      }
      AppendWhole(s, r, begun);
      AppendStore(s, s', r, begun);
      assert TaskOk(s', t);
      forall u | u in s'.tasks && u != t ensures TaskOk(s', u) {
        assert TaskOk(s, u);
        if begun {
          OwnersDiffer(s, t, u);
        }
        hide TaskOk;
        IndexOther(s, s', t, u);
      }
      ApartStays(s, s');
    }
  }

  lemma OwnersDiffer(s: State, t: TaskId, u: TaskId)
    requires Inv(s) && t in s.tasks && u in s.tasks && t != u && Owned(s.tasks[t].stage).Some?
    ensures Owned(s.tasks[u].stage) != Owned(s.tasks[t].stage)
  {
    assert Apart(s, t, u);
  }

  lemma RenameWhole(lines: seq<Line>, keep: seq<Record>)
    requires Selection(lines, keep)
    ensures Whole(Rewritten(keep)) && IdsOf(Rewritten(keep)) <= IdsOf(lines)
  {
    var lines' := Rewritten(keep);
    forall id
      ensures Latest(lines', id).Some? ==> IsEntry(Latest(lines', id).value)
      ensures id in IdsOf(lines') ==> id in IdsOf(lines)
    {
      LatestRewritten(keep, id);
      LatestId(lines', id);
      if id in KeptIds(keep) {
        var i :| 0 <= i < |keep| && keep[i].id == id;
        assert Yield(lines, keep[i].id) == Some(keep[i]);
        LatestId(lines, id);
      }
    }
  }

  lemma RenameStore(s: State, s': State, keep: seq<Record>)
    requires StoreOk(s) && Selection(s.index, keep) && s'.index == Rewritten(keep)
    requires s'.blobs == s.blobs && s'.given == s.given && s'.landed == s.landed
    ensures StoreOk(s')
    ensures forall id :: id in KeptIds(keep) <==> Yield(s'.index, id).Some?
    ensures forall id :: Yield(s'.index, id).Some? ==> Yield(s.index, id).Some?
  {
    RenameWhole(s.index, keep);
    hide Whole, Yield, OwnRefs, Refs, BeginWrites, IdsOf;
    forall id
      ensures ImagesOnDisk(s', id)
      ensures id in KeptIds(keep) <==> Yield(s'.index, id).Some?
      ensures Yield(s'.index, id).Some? ==> Yield(s.index, id).Some?
    {
      RewrittenYields(s.index, keep, id);
      assert ImagesOnDisk(s, id);
    }
    forall b ensures BytesAsGiven(s', b) {
      assert BytesAsGiven(s, b);
    }
  }

  lemma RenameKeeps(s: State, t: TaskId)
    requires Inv(s)
    ensures Inv(AfterRename(s, t))
  {
    hide Yield, OwnRefs, Refs, BeginWrites, SettleWrites, Selection, StoreOk, Apart, KeptIds, Rewritten;
    var s' := AfterRename(s, t);
    if s' != s {
      assert TaskOk(s, t);
      RenameStore(s, s', s.tasks[t].stage.keep);
      assert TaskOk(s', t);
      forall u | u in s'.tasks && u != t ensures TaskOk(s', u) {
        assert TaskOk(s, u);
        hide TaskOk;
        UnlandedStays(s, u);
        IndexOther(s, s', t, u);
      }
      ApartStays(s, s');
    }
  }

  lemma UnlandedStays(s: State, u: TaskId)
    requires u in s.tasks && TaskOk(s, u)
    ensures Unlanded(s.tasks[u].stage).Some? ==> Unlanded(s.tasks[u].stage).value !in s.landed
  {
  }

  /** The blob of an id the index does not yield is gone. */
  lemma UnlinkStore(s: State, s': State, f: BlobName)
    requires StoreOk(s) && Yield(s.index, f.id).None? && s'.blobs == s.blobs - {f}
    requires s'.index == s.index && s'.given == s.given && s'.landed == s.landed
    ensures StoreOk(s')
  {
    hide Whole, Refs, BeginWrites, IdsOf, Yield;
    forall id ensures ImagesOnDisk(s', id) {
      assert ImagesOnDisk(s, id);
      YieldHasId(s.index, id);
    }
    forall b ensures BytesAsGiven(s', b) {
      assert BytesAsGiven(s, b);
    }
  }

  lemma WrittenIds(s: State, u: TaskId)
    requires u in s.tasks && (s.tasks[u].stage.Writing? || s.tasks[u].stage.Settling?)
    ensures s.tasks[u].stage.Writing? ==>
              var Writing(id, input, done) := s.tasks[u].stage;
              forall b :: b in Written(BeginWrites(id, input), done) ==> b.id == id
    ensures s.tasks[u].stage.Settling? && IsEntry(s.tasks[u].stage.existing) ==>
              var Settling(existing, settling, done) := s.tasks[u].stage;
              forall b :: b in Written(SettleWrites(existing, settling), done) ==> b.id == existing.id
  {
    hide BeginWrites, SettleWrites;
    match s.tasks[u].stage {
      case Writing(id, input, done) =>
        BeginNamesItsBlobs(id, Timestamp(0, None), input, None);
        assert Written(BeginWrites(id, input), done) <= Names(BeginWrites(id, input));
      case Settling(existing, settling, done) =>
        if IsEntry(existing) {
          SettleNamesItsBlobs(existing, settling);
          assert Written(SettleWrites(existing, settling), done) <= Names(SettleWrites(existing, settling));
        }
    }
  }

  lemma UnlinkOther(s: State, s': State, f: BlobName, u: TaskId)
    requires u in s.tasks && TaskOk(s, u) && u in s'.tasks && s'.tasks[u] == s.tasks[u]
    requires s' == s.(blobs := s.blobs - {f}, tasks := s'.tasks)
    requires Yield(s.index, f.id).None? && Unlanded(s.tasks[u].stage) != Some(f.id)
    ensures TaskOk(s', u)
  {
    hide Yield, Refs, BeginWrites, SettleWrites, Selection, Written;
    if s.tasks[u].stage.Writing? || s.tasks[u].stage.Settling? {
      WrittenIds(s, u);
    }
  }

  /** What keeps a live begin's blobs: it is apart from the sweep, so its id is registered. */
  lemma UnlinkKeeps(s: State, t: TaskId, f: BlobName)
    requires Inv(s)
    ensures Inv(AfterUnlink(s, t, f))
  {
    hide Yield, OwnRefs, Refs, BeginWrites, SettleWrites, Selection, StoreOk;
    var s' := AfterUnlink(s, t, f);
    if s' != s {
      assert TaskOk(s, t);
      UnlinkStore(s, s', f);
      assert TaskOk(s', t);
      forall u | u in s'.tasks && u != t ensures TaskOk(s', u) {
        assert TaskOk(s, u) && Apart(s, t, u);
        hide TaskOk;
        UnlinkOther(s, s', f, u);
      }
      hide Apart;
      ApartStays(s, s');
    }
  }
}
