/**
  The cross-process lock file of src/state-dir.ts as a step machine: every open, write, stat,
  read and unlink of every caller is a step of its own, in any interleaving, with crashes.
 */
module FileLock {
  import opened Options
  import opened Sequences

  /** One call of withFileLock. Its nonce identifies it, so the model uses the nonce itself. */
  type Client = nat

  datatype Holder = Holder(pid: int, hostname: string, nonce: Client)

  /** The file at the lock path: who created it, what it says (nothing until written), its mtime. */
  datatype LockFile = LockFile(creator: Client, record: Option<Holder>, mtime: int)

  datatype Pc =
    | Trying       // about to open with O_EXCL
    | Created      // the open succeeded, the record is not written yet
    | WriteFailed  // writing the record threw, about to drop the file
    | Inside       // running the protected section
    | Releasing    // about to read the lock file back
    | Unlinking    // read its own nonce, about to unlink
    | Contending   // the open failed, about to stat
    | Judging      // past the soft limit, about to read the holder
    | Breaking     // judged the file stale, about to unlink it
    | Done         // returned, threw or crashed

  datatype Settings = Settings(pid: int, hostname: string, waitMs: nat, hardMs: nat)

  const HARD_STALE_FLOOR_MS := 60_000

  function DefaultHardStaleMs(waitMs: nat): nat {
    if 10 * waitMs < HARD_STALE_FLOOR_MS then HARD_STALE_FLOOR_MS else 10 * waitMs
  }

  /** Only a process of this host that kill(pid, 0) answers ESRCH for is provably gone. */
  predicate OwnerIsGone(holder: Holder, hostname: string, esrch: bool) {
    holder.hostname == hostname && holder.pid > 0 && esrch
  }

  /**
    `breaks` counts files removed as stale; the three sets name callers whose own file somebody
    else removed: a stale break, a failed writer's clean-up, a late release.
   */
  datatype State = State(
    file: Option<LockFile>, pc: map<Client, Pc>, now: int,
    breaks: nat, broken: set<Client>, swept: set<Client>, robbed: set<Client>)

  const INIT := State(None, map[], 0, 0, {}, {}, {})

  /** Steps of a caller; the flags are the file system's and the clock's choices. */
  datatype Action =
    | Start(c: Client)
    | Open(c: Client)
    | WriteRecord(c: Client, ok: bool)
    | CleanUp(c: Client)
    | Stat(c: Client, giveUp: bool)
    | ReadHolder(c: Client, readable: bool, esrch: bool, giveUp: bool)
    | Break(c: Client, ok: bool)
    | Leave(c: Client)
    | ReadBack(c: Client, readable: bool)
    | Unlink(c: Client, ok: bool)
    | ReleaseAtOnce(c: Client)
    | Crash(c: Client)
    | Tick(ms: nat)

  predicate At(s: State, c: Client, pc: Pc) {
    c in s.pc && s.pc[c] == pc
  }

  function Goto(s: State, c: Client, pc: Pc): State {
    s.(pc := s.pc[c := pc])
  }

  predicate Owns(s: State, c: Client) {
    s.file.Some? && s.file.value.creator == c
  }

  predicate CarriesNonce(s: State, c: Client) {
    s.file.Some? && s.file.value.record.Some? && s.file.value.record.value.nonce == c
  }

  /** The creator of the file, if it is not c. */
  function OtherOwner(s: State, c: Client): set<Client> {
    if s.file.Some? && s.file.value.creator != c then {s.file.value.creator} else {}
  }

  /** A caller that did not break the file sleeps and tries again, or times out. */
  function Retry(giveUp: bool): Pc {
    if giveUp then Done else Trying
  }

  /** One step; an action that is not enabled changes nothing. */
  function Step(cfg: Client -> Settings, s: State, a: Action): State {
    match a
    case Start(c) =>
      if c in s.pc then s else Goto(s, c, Trying)
    case Open(c) =>
      if !At(s, c, Trying) then s
      else if s.file.Some? then Goto(s, c, Contending)
      else Goto(s, c, Created).(file := Some(LockFile(c, None, s.now)))
    case WriteRecord(c, ok) =>
      if !At(s, c, Created) then s
      else if !ok then Goto(s, c, WriteFailed)
      else
        // The write goes through the handle: it reaches the path only while the file is still there.
        var record := Some(Holder(cfg(c).pid, cfg(c).hostname, c));
        Goto(s, c, Inside).(file := if Owns(s, c) then Some(LockFile(c, record, s.now)) else s.file)
    case CleanUp(c) =>
      if !At(s, c, WriteFailed) then s
      else Goto(s, c, Done).(file := None, swept := s.swept + OtherOwner(s, c))
    case Stat(c, giveUp) =>
      if !At(s, c, Contending) then s
      else if s.file.None? then Goto(s, c, Trying)
      else
        var age := s.now - s.file.value.mtime;
        if age > cfg(c).hardMs then Goto(s, c, Breaking)
        else if age > 2 * cfg(c).waitMs then Goto(s, c, Judging)
        else Goto(s, c, Retry(giveUp))
    case ReadHolder(c, readable, esrch, giveUp) =>
      if !At(s, c, Judging) then s
      else if readable && s.file.Some? && s.file.value.record.Some?
              && OwnerIsGone(s.file.value.record.value, cfg(c).hostname, esrch)
      then Goto(s, c, Breaking)
      else Goto(s, c, Retry(giveUp))
    case Break(c, ok) =>
      if !At(s, c, Breaking) then s
      else if !ok then Goto(s, c, Done)
      else if s.file.None? then Goto(s, c, Trying)
      else Goto(s, c, Trying).(file := None, breaks := s.breaks + 1, broken := s.broken + {s.file.value.creator})
    case Leave(c) =>
      if At(s, c, Inside) then Goto(s, c, Releasing) else s
    case ReadBack(c, readable) =>
      if !At(s, c, Releasing) then s
      else Goto(s, c, if readable && CarriesNonce(s, c) then Unlinking else Done)
    case Unlink(c, ok) =>
      if !At(s, c, Unlinking) then s
      else if !ok then Goto(s, c, Done)
      else Goto(s, c, Done).(file := None, robbed := s.robbed + OtherOwner(s, c))
    case ReleaseAtOnce(c) =>
      if !At(s, c, Inside) then s
      else Goto(s, c, Done).(file := if CarriesNonce(s, c) then None else s.file)
    case Crash(c) =>
      if c in s.pc then Goto(s, c, Done) else s
    case Tick(ms) => s.(now := s.now + ms)
  }

  function Run(cfg: Client -> Settings, actions: seq<Action>): State {
    if actions == [] then INIT
    else Step(cfg, Run(cfg, actions[..|actions| - 1]), actions[|actions| - 1])
  }

  // ----- how many can be inside ----------------------------------------------------------------

  /** Callers between a successful open and the end of their release. */
  predicate IsHolder(pc: Pc) {
    pc in {Created, WriteFailed, Inside, Releasing, Unlinking}
  }

  function Holders(s: State): set<Client> {
    set c | c in s.pc && IsHolder(s.pc[c])
  }

  function Insiders(s: State): set<Client> {
    set c | c in s.pc && s.pc[c] == Inside
  }

  /** Stale breaks so far, and the file if there is one. */
  function Balance(s: State): nat {
    s.breaks + if s.file.Some? then 1 else 0
  }

  /** The counting invariant: every holder beyond the first is paid for by a break. */
  ghost predicate Paid(s: State) {
    |Holders(s)| <= Balance(s)
  }

  /** Joining the holders takes creating the file; only leaving them may remove it unpaid. */
  lemma Ledger(cfg: Client -> Settings, s: State, a: Action)
    requires !a.Tick? && Step(cfg, s, a) != s
    ensures var s', c := Step(cfg, s, a), a.c;
            && c in s'.pc && s'.pc == s.pc[c := s'.pc[c]]
            && (IsHolder(s'.pc[c]) && c !in Holders(s) ==> Balance(s') == Balance(s) + 1)
            && (!IsHolder(s'.pc[c]) && c in Holders(s) ==> Balance(s') >= Balance(s) - 1)
            && ((IsHolder(s'.pc[c]) <==> c in Holders(s)) ==> Balance(s') >= Balance(s))
  {
  }

  lemma HoldersAfter(s: State, s': State, c: Client, pc: Pc)
    requires s'.pc == s.pc[c := pc]
    ensures Holders(s') == if IsHolder(pc) then Holders(s) + {c} else Holders(s) - {c}
    ensures |Holders(s')| == |Holders(s)| + (if IsHolder(pc) then 1 else 0) - (if c in Holders(s) then 1 else 0)
  {
    var h, h' := Holders(s), Holders(s');
    assert h' == if IsHolder(pc) then h + {c} else h - {c};
    if c in h {
      assert h == (h - {c}) + {c};
    }
  }

  lemma StepKeepsPaid(cfg: Client -> Settings, s: State, a: Action)
    requires Paid(s)
    ensures Paid(Step(cfg, s, a))
  {
    var s' := Step(cfg, s, a);
    if a.Tick? {
      assert Holders(s') == Holders(s);
    } else if s' != s {
      Ledger(cfg, s, a);
      HoldersAfter(s, s', a.c, s'.pc[a.c]);
    }
  }

  lemma {:induction false} AlwaysPaid(cfg: Client -> Settings, actions: seq<Action>)
    ensures Paid(Run(cfg, actions))
  {
    if actions == [] {
      assert Holders(INIT) == {};
    } else {
      AlwaysPaid(cfg, actions[..|actions| - 1]);
      StepKeepsPaid(cfg, Run(cfg, actions[..|actions| - 1]), actions[|actions| - 1]);
    }
  }

  /** In every run at most one caller more than there were stale breaks is inside. */
  lemma InsideAtMostOnePlusBreaks(cfg: Client -> Settings, actions: seq<Action>)
    ensures |Insiders(Run(cfg, actions))| <= 1 + Run(cfg, actions).breaks
  {
    AlwaysPaid(cfg, actions);
    SubsetSize(Insiders(Run(cfg, actions)), Holders(Run(cfg, actions)));
  }

  /** Mutual exclusion of every run without a break. */
  lemma MutualExclusion(cfg: Client -> Settings, actions: seq<Action>, c: Client, d: Client)
    requires Run(cfg, actions).breaks == 0
    requires c in Insiders(Run(cfg, actions)) && d in Insiders(Run(cfg, actions))
    ensures c == d
  {
    InsideAtMostOnePlusBreaks(cfg, actions);
    if c != d {
      SubsetSize({c, d}, Insiders(Run(cfg, actions)));
    }
  }

  // ----- when nothing is ever broken ---------------------------------------------------------------

  /** The lock file is younger than any caller's soft and hard limit. */
  ghost predicate Young(cfg: Client -> Settings, s: State) {
    s.file.Some? ==> forall c :: c in s.pc ==>
      var age := s.now - s.file.value.mtime; age <= 2 * cfg(c).waitMs && age <= cfg(c).hardMs
  }

  ghost predicate AlwaysYoung(cfg: Client -> Settings, actions: seq<Action>) {
    forall n :: 0 <= n <= |actions| ==> Young(cfg, Run(cfg, actions[..n]))
  }

  /** Nothing was broken and nobody is about to. */
  ghost predicate Unbroken(s: State) {
    s.breaks == 0 && forall c :: c in s.pc ==> s.pc[c] != Judging && s.pc[c] != Breaking
  }

  lemma YoungStep(cfg: Client -> Settings, s: State, a: Action)
    requires Young(cfg, s) && Unbroken(s)
    ensures Unbroken(Step(cfg, s, a))
  {
  }

  lemma {:induction false} YoungLocksAreNotBroken(cfg: Client -> Settings, actions: seq<Action>)
    requires AlwaysYoung(cfg, actions)
    ensures Unbroken(Run(cfg, actions))
  {
    if actions != [] {
      var before := actions[..|actions| - 1];
      forall n | 0 <= n <= |before|
        ensures Young(cfg, Run(cfg, before[..n]))
      {
        assert before[..n] == actions[..n];
      }
      YoungLocksAreNotBroken(cfg, before);
      assert Young(cfg, Run(cfg, before)) by {
        assert before[..|before|] == before;
      }
      YoungStep(cfg, Run(cfg, before), actions[|actions| - 1]);
    }
  }

  /** The default hard limit never undercuts the soft one: it is the longer of ten waits and a minute. */
  lemma DefaultHardLimitIsLonger(waitMs: nat)
    ensures var hard := DefaultHardStaleMs(waitMs);
            2 * waitMs <= hard && 10 * waitMs <= hard && 60_000 <= hard && (hard == 10 * waitMs || hard == 60_000)
  {
  }

  /** Locks held no longer than the soft limit exclude, whatever the interleaving and whoever crashes. */
  lemma ShortSectionsExclude(cfg: Client -> Settings, actions: seq<Action>, c: Client, d: Client)
    requires AlwaysYoung(cfg, actions)
    requires c in Insiders(Run(cfg, actions)) && d in Insiders(Run(cfg, actions))
    ensures c == d
  {
    YoungLocksAreNotBroken(cfg, actions);
    MutualExclusion(cfg, actions, c, d);
  }

  // ----- who is inside, when releasing is one step ----------------------------------------------------

  /** Runs whose releases are atomic. */
  ghost predicate AtomicReleases(actions: seq<Action>) {
    forall n :: 0 <= n < |actions| ==> !actions[n].Leave?
  }

  /** The file names its creator, who exists, once that caller is inside; nobody is mid-release. */
  ghost predicate Orderly(s: State) {
    && (s.file.Some? ==> s.file.value.creator in s.pc)
    && (s.file.Some? && s.file.value.record.Some? ==> s.file.value.record.value.nonce == s.file.value.creator)
    && (s.file.Some? && At(s, s.file.value.creator, Inside) ==> s.file.value.record.Some?)
    && (forall c :: c in s.pc ==> s.pc[c] != Releasing && s.pc[c] != Unlinking)
  }

  /** Every caller that got in either owns the file or had its own removed. */
  ghost predicate Accounted(s: State) {
    forall c :: c in s.pc && IsHolder(s.pc[c]) ==> Owns(s, c) || c in s.broken || c in s.swept
  }

  lemma StepKeepsOrderly(cfg: Client -> Settings, s: State, a: Action)
    requires Orderly(s) && !a.Leave?
    ensures Orderly(Step(cfg, s, a))
  {
  }

  lemma StepKeepsAccounted(cfg: Client -> Settings, s: State, a: Action)
    requires Orderly(s) && Accounted(s) && !a.Leave?
    ensures Accounted(Step(cfg, s, a))
  {
  }

  lemma {:induction false} AlwaysAccounted(cfg: Client -> Settings, actions: seq<Action>)
    requires AtomicReleases(actions)
    ensures Orderly(Run(cfg, actions)) && Accounted(Run(cfg, actions))
  {
    if actions != [] {
      AlwaysAccounted(cfg, actions[..|actions| - 1]);
      StepKeepsOrderly(cfg, Run(cfg, actions[..|actions| - 1]), actions[|actions| - 1]);
      StepKeepsAccounted(cfg, Run(cfg, actions[..|actions| - 1]), actions[|actions| - 1]);
    }
  }

  /**
    With atomic releases, a caller inside is the one whose nonce is in the file, or its file was
    removed under it by a stale break or by a failed writer's clean-up.
   */
  lemma InsiderHoldsTheFileOrLostIt(cfg: Client -> Settings, actions: seq<Action>, c: Client)
    requires AtomicReleases(actions) && c in Insiders(Run(cfg, actions))
    ensures CarriesNonce(Run(cfg, actions), c) || c in Run(cfg, actions).broken || c in Run(cfg, actions).swept
  {
    AlwaysAccounted(cfg, actions);
  }

  // ----- a break is always at the root --------------------------------------------------------------------

  /** While nothing was broken, every holder owns the file and nobody else's file was removed. */
  ghost predicate Pristine(s: State) {
    s.breaks == 0 ==>
      && s.broken == {} && s.swept == {} && s.robbed == {}
      && (forall c :: c in s.pc && IsHolder(s.pc[c]) ==> Owns(s, c))
      && (s.file.Some? && s.file.value.record.Some? ==> s.file.value.record.value.nonce == s.file.value.creator)
  }

  lemma StepKeepsPristine(cfg: Client -> Settings, s: State, a: Action)
    requires Pristine(s)
    ensures Pristine(Step(cfg, s, a))
  {
  }

  /** Removing a file that belongs to somebody else takes a stale break first. */
  lemma {:induction false} TheftNeedsABreak(cfg: Client -> Settings, actions: seq<Action>)
    ensures Pristine(Run(cfg, actions))
  {
    if actions != [] {
      TheftNeedsABreak(cfg, actions[..|actions| - 1]);
      StepKeepsPristine(cfg, Run(cfg, actions[..|actions| - 1]), actions[|actions| - 1]);
    }
  }

  // ----- exactly when a holder can be joined ---------------------------------------------------------------

  function RunFrom(cfg: Client -> Settings, s: State, actions: seq<Action>): State {
    if actions == [] then s
    else Step(cfg, RunFrom(cfg, s, actions[..|actions| - 1]), actions[|actions| - 1])
  }

  lemma OneMore(cfg: Client -> Settings, s: State, actions: seq<Action>, a: Action)
    ensures RunFrom(cfg, s, actions + [a]) == Step(cfg, RunFrom(cfg, s, actions), a)
  {
    assert (actions + [a])[..|actions|] == actions;
  }

  lemma {:induction false} RunOn(cfg: Client -> Settings, actions: seq<Action>, more: seq<Action>)
    ensures Run(cfg, actions + more) == RunFrom(cfg, Run(cfg, actions), more)
  {
    if more == [] {
      assert actions + more == actions;
    } else {
      RunOn(cfg, actions, more[..|more| - 1]);
      assert (actions + more)[..|actions + more| - 1] == actions + more[..|more| - 1];
    }
  }

  /** Steps of one caller alone, in which no time passes. */
  ghost predicate OnlyBy(actions: seq<Action>, d: Client) {
    forall n :: 0 <= n < |actions| ==> !actions[n].Tick? && actions[n].c == d
  }

  /**
    What lets d in although another caller is inside: no file, a file past d's hard limit, or one past
    its soft limit whose record names a process of d's host, which may look gone.
   */
  predicate CanJoin(cfg: Client -> Settings, s: State, d: Client) {
    s.file.None?
    || s.now - s.file.value.mtime > cfg(d).hardMs
    || (s.now - s.file.value.mtime > 2 * cfg(d).waitMs && s.file.value.record.Some?
        && s.file.value.record.value.hostname == cfg(d).hostname && s.file.value.record.value.pid > 0)
  }

  /** d goes in: nothing but its own place, the file and perhaps the number of breaks changes. */
  ghost predicate Joined(s: State, t: State, d: Client) {
    && t.pc == s.pc[d := Inside] && t.now == s.now && t.file.Some?
    && t.breaks == s.breaks + if s.file.Some? then 1 else 0
  }

  lemma {:induction false} EnterFree(cfg: Client -> Settings, s: State, steps: seq<Action>, d: Client)
    requires At(RunFrom(cfg, s, steps), d, Trying) && RunFrom(cfg, s, steps).file.None?
    ensures var t, t' := RunFrom(cfg, s, steps), RunFrom(cfg, s, steps + [Open(d)] + [WriteRecord(d, true)]);
            t'.pc == t.pc[d := Inside] && t'.file.Some? && t'.breaks == t.breaks && t'.now == t.now
  {
    var t := RunFrom(cfg, s, steps);
    OneMore(cfg, s, steps, Open(d));
    OneMore(cfg, s, steps + [Open(d)], WriteRecord(d, true));
    assert Step(cfg, t, Open(d)).pc == t.pc[d := Created];
    hide RunFrom;
  }

  lemma Arrive(cfg: Client -> Settings, s: State, d: Client)
    requires d !in s.pc
    ensures RunFrom(cfg, s, [Start(d)]) == s.(pc := s.pc[d := Trying])
    ensures s.file.Some? ==> RunFrom(cfg, s, [Start(d), Open(d)]) == s.(pc := s.pc[d := Contending])
  {
    assert [] + [Start(d)] == [Start(d)] && [Start(d)] + [Open(d)] == [Start(d), Open(d)];
    OneMore(cfg, s, [], Start(d));
    OneMore(cfg, s, [Start(d)], Open(d));
    hide RunFrom;
    assert s.pc[d := Trying][d := Contending] == s.pc[d := Contending];
  }

  /** Past its hard limit a file is broken without a question: six steps, one more break, one more inside. */
  lemma JoinPastHardLimit(cfg: Client -> Settings, s: State, d: Client)
    requires d !in s.pc && s.file.Some? && s.now - s.file.value.mtime > cfg(d).hardMs
    ensures var steps := [Start(d), Open(d), Stat(d, false), Break(d, true), Open(d), WriteRecord(d, true)];
            Joined(s, RunFrom(cfg, s, steps), d)
  {
    hide RunFrom;
    Arrive(cfg, s, d);
    var two := [Start(d), Open(d)];
    OneMore(cfg, s, two, Stat(d, false));
    BreakAndEnter(cfg, s, two + [Stat(d, false)], d);
    hide Step;
    assert two + [Stat(d, false)] + [Break(d, true)] + [Open(d)] + [WriteRecord(d, true)]
        == [Start(d), Open(d), Stat(d, false), Break(d, true), Open(d), WriteRecord(d, true)];
  }

  lemma BreakStep(cfg: Client -> Settings, s: State, d: Client)
    requires s.file.Some?
    ensures Step(cfg, s.(pc := s.pc[d := Breaking]), Break(d, true))
         == s.(pc := s.pc[d := Trying], file := None, breaks := s.breaks + 1, broken := s.broken + {s.file.value.creator})
  {
    assert s.pc[d := Breaking][d := Trying] == s.pc[d := Trying];
  }

  lemma {:induction false} BreakAndEnter(cfg: Client -> Settings, s: State, steps: seq<Action>, d: Client)
    requires RunFrom(cfg, s, steps) == s.(pc := s.pc[d := Breaking]) && s.file.Some?
    ensures Joined(s, RunFrom(cfg, s, steps + [Break(d, true)] + [Open(d)] + [WriteRecord(d, true)]), d)
  {
    hide RunFrom, Step;
    OneMore(cfg, s, steps, Break(d, true));
    BreakStep(cfg, s, d);
    var broken := steps + [Break(d, true)];
    EnterFree(cfg, s, broken, d);
    assert s.pc[d := Trying][d := Inside] == s.pc[d := Inside];
  }

  lemma JoinPastSoftLimit(cfg: Client -> Settings, s: State, d: Client)
    requires d !in s.pc && s.file.Some? && CanJoin(cfg, s, d) && s.now - s.file.value.mtime <= cfg(d).hardMs
    ensures var steps := [Start(d), Open(d), Stat(d, false), ReadHolder(d, true, true, false), Break(d, true), Open(d), WriteRecord(d, true)];
            Joined(s, RunFrom(cfg, s, steps), d)
  {
    hide RunFrom;
    Arrive(cfg, s, d);
    var two := [Start(d), Open(d)];
    OneMore(cfg, s, two, Stat(d, false));
    assert RunFrom(cfg, s, two + [Stat(d, false)]) == s.(pc := s.pc[d := Judging]);
    OneMore(cfg, s, two + [Stat(d, false)], ReadHolder(d, true, true, false));
    var four := two + [Stat(d, false)] + [ReadHolder(d, true, true, false)];
    assert RunFrom(cfg, s, four) == s.(pc := s.pc[d := Breaking]);
    hide Step;
    BreakAndEnter(cfg, s, four, d);
    assert four + [Break(d, true)] + [Open(d)] + [WriteRecord(d, true)]
        == [Start(d), Open(d), Stat(d, false), ReadHolder(d, true, true, false), Break(d, true), Open(d), WriteRecord(d, true)];
  }

  lemma JoinFree(cfg: Client -> Settings, s: State, d: Client)
    requires d !in s.pc && s.file.None?
    ensures Joined(s, RunFrom(cfg, s, [Start(d), Open(d), WriteRecord(d, true)]), d)
  {
    Arrive(cfg, s, d);
    EnterFree(cfg, s, [Start(d)], d);
    assert [Start(d)] + [Open(d)] + [WriteRecord(d, true)] == [Start(d), Open(d), WriteRecord(d, true)];
    hide RunFrom;
  }

  /** As long as d is kept out, it changes nothing but its own place. */
  ghost predicate KeptOut(cfg: Client -> Settings, s: State, t: State, d: Client) {
    && t.file == s.file && t.now == s.now
    && (d in t.pc ==> t.pc[d] in {Trying, Contending, Judging, Done})
    && (At(t, d, Judging) ==> s.file.Some? && s.now - s.file.value.mtime > 2 * cfg(d).waitMs)
  }

  lemma {:induction false} CannotJoin(cfg: Client -> Settings, s: State, d: Client, steps: seq<Action>)
    requires d !in s.pc && !CanJoin(cfg, s, d) && OnlyBy(steps, d)
    ensures KeptOut(cfg, s, RunFrom(cfg, s, steps), d)
  {
    if steps != [] {
      CannotJoin(cfg, s, d, steps[..|steps| - 1]);
    }
  }

  lemma OthersStay(cfg: Client -> Settings, s: State, a: Action, c: Client)
    requires !a.Tick? && a.c != c
    ensures c in Step(cfg, s, a).pc <==> c in s.pc
    ensures c in s.pc ==> Step(cfg, s, a).pc[c] == s.pc[c]
  {
  }

  lemma {:induction false} OthersStayInside(cfg: Client -> Settings, s: State, c: Client, d: Client, steps: seq<Action>)
    requires c in Insiders(s) && c != d && OnlyBy(steps, d)
    ensures c in Insiders(RunFrom(cfg, s, steps))
  {
    if steps != [] {
      OthersStayInside(cfg, s, c, d, steps[..|steps| - 1]);
      OthersStay(cfg, RunFrom(cfg, s, steps[..|steps| - 1]), steps[|steps| - 1], c);
      hide Step;
    }
  }

  /** d can join by its own steps. */
  ghost predicate JoinsAlone(cfg: Client -> Settings, s: State, d: Client) {
    exists steps :: OnlyBy(steps, d) && At(RunFrom(cfg, s, steps), d, Inside)
  }

  lemma JoinsAloneIff(cfg: Client -> Settings, s: State, d: Client)
    requires d !in s.pc
    ensures JoinsAlone(cfg, s, d) <==> CanJoin(cfg, s, d)
  {
    if CanJoin(cfg, s, d) {
      var steps;
      if s.file.None? {
        steps := [Start(d), Open(d), WriteRecord(d, true)];
        JoinFree(cfg, s, d);
      } else if s.now - s.file.value.mtime > cfg(d).hardMs {
        steps := [Start(d), Open(d), Stat(d, false), Break(d, true), Open(d), WriteRecord(d, true)];
        JoinPastHardLimit(cfg, s, d);
      } else {
        steps := [Start(d), Open(d), Stat(d, false), ReadHolder(d, true, true, false), Break(d, true), Open(d), WriteRecord(d, true)];
        JoinPastSoftLimit(cfg, s, d);
      }
      hide RunFrom;
      assert OnlyBy(steps, d) && At(RunFrom(cfg, s, steps), d, Inside);
    } else {
      forall steps | OnlyBy(steps, d) ensures !At(RunFrom(cfg, s, steps), d, Inside) {
        CannotJoin(cfg, s, d, steps);
      }
    }
  }

  /**
    In any run, exactly when a caller inside can be joined by a newcomer before time passes or anybody
    else moves: if its file is gone, too old, or old enough and seemingly left by a dead process.
   */
  lemma HolderIsJoinedIff(cfg: Client -> Settings, actions: seq<Action>, c: Client, d: Client)
    requires c in Insiders(Run(cfg, actions)) && d !in Run(cfg, actions).pc
    ensures (exists more :: OnlyBy(more, d) && {c, d} <= Insiders(Run(cfg, actions + more))) <==> CanJoin(cfg, Run(cfg, actions), d)
  {
    var s := Run(cfg, actions);
    JoinsAloneIff(cfg, s, d);
    hide Run, RunFrom, CanJoin;
    if JoinsAlone(cfg, s, d) {
      var more :| OnlyBy(more, d) && At(RunFrom(cfg, s, more), d, Inside);
      RunOn(cfg, actions, more);
      OthersStayInside(cfg, s, c, d, more);
      assert {c, d} <= Insiders(Run(cfg, actions + more));
    } else {
      forall more | OnlyBy(more, d) ensures !({c, d} <= Insiders(Run(cfg, actions + more))) {
        RunOn(cfg, actions, more);
        assert !At(RunFrom(cfg, s, more), d, Inside);
        assert d !in Insiders(Run(cfg, actions + more));
      }
    }
  }

  // ----- what a release may take ---------------------------------------------------------------------------

  /** A record names the creator of its file. */
  ghost predicate Signed(s: State) {
    s.file.Some? && s.file.value.record.Some? ==> s.file.value.record.value.nonce == s.file.value.creator
  }

  lemma {:induction false} AlwaysSigned(cfg: Client -> Settings, actions: seq<Action>)
    ensures Signed(Run(cfg, actions))
  {
    if actions != [] {
      AlwaysSigned(cfg, actions[..|actions| - 1]);
    }
  }

  /** A caller that finds a foreign or unreadable file when it leaves never touches it, whatever it does next. */
  lemma {:induction false} ForeignFileStays(cfg: Client -> Settings, s: State, c: Client, steps: seq<Action>)
    requires At(s, c, Releasing) && !CarriesNonce(s, c) && OnlyBy(steps, c)
    ensures var t := RunFrom(cfg, s, steps);
            t.file == s.file && t.robbed == s.robbed && (At(t, c, Releasing) || At(t, c, Done))
  {
    if steps != [] {
      ForeignFileStays(cfg, s, c, steps[..|steps| - 1]);
    }
  }

  /** Whoever is about to unlink has read its own nonce back from a file of its own. */
  ghost predicate ReadOwnBack(cfg: Client -> Settings, actions: seq<Action>, c: Client, n: int) {
    && 0 <= n < |actions| && actions[n] == ReadBack(c, true)
    && CarriesNonce(Run(cfg, actions[..n]), c) && Owns(Run(cfg, actions[..n]), c)
  }

  lemma {:induction false} UnlinkerReadBack(cfg: Client -> Settings, actions: seq<Action>, c: Client)
    requires At(Run(cfg, actions), c, Unlinking)
    ensures exists n :: ReadOwnBack(cfg, actions, c, n)
  {
    var before, a := actions[..|actions| - 1], actions[|actions| - 1];
    if At(Run(cfg, before), c, Unlinking) {
      UnlinkerReadBack(cfg, before, c);
      var n :| ReadOwnBack(cfg, before, c, n);
      assert before[..n] == actions[..n];
      assert ReadOwnBack(cfg, actions, c, n);
    } else {
      AlwaysSigned(cfg, before);
      assert a == ReadBack(c, true);
      assert ReadOwnBack(cfg, actions, c, |actions| - 1);
    }
  }

  /**
    A release takes somebody else's file only in a race: the file was the caller's own when it read
    its nonce back, and was replaced before it unlinked.
   */
  lemma ReleaseRobsOnlyInARace(cfg: Client -> Settings, actions: seq<Action>, a: Action)
    requires Step(cfg, Run(cfg, actions), a).robbed != Run(cfg, actions).robbed
    ensures a == Unlink(a.c, true) && !Owns(Run(cfg, actions), a.c)
    ensures exists n :: ReadOwnBack(cfg, actions, a.c, n)
  {
    hide Run;
    UnlinkerReadBack(cfg, actions, a.c);
  }

  /** A caller that still has its file frees the lock when it leaves. */
  lemma ReleaseFrees(cfg: Client -> Settings, s: State, c: Client)
    requires At(s, c, Inside) && CarriesNonce(s, c) && Owns(s, c)
    ensures RunFrom(cfg, s, [Leave(c), ReadBack(c, true), Unlink(c, true)]) == s.(pc := s.pc[c := Done], file := None)
    ensures RunFrom(cfg, s, [ReleaseAtOnce(c)]) == s.(pc := s.pc[c := Done], file := None)
  {
    NothingRun(cfg, s);
    hide RunFrom;
    OneMore(cfg, s, [], ReleaseAtOnce(c));
    OneMore(cfg, s, [], Leave(c));
    OneMore(cfg, s, [Leave(c)], ReadBack(c, true));
    OneMore(cfg, s, [Leave(c), ReadBack(c, true)], Unlink(c, true));
    assert [] + [Leave(c)] == [Leave(c)] && [] + [ReleaseAtOnce(c)] == [ReleaseAtOnce(c)];
    assert [Leave(c)] + [ReadBack(c, true)] == [Leave(c), ReadBack(c, true)];
    assert [Leave(c), ReadBack(c, true)] + [Unlink(c, true)] == [Leave(c), ReadBack(c, true), Unlink(c, true)];
    assert s.pc[c := Releasing][c := Unlinking][c := Done] == s.pc[c := Done];
  }

  /** A caller that cannot write its record takes its file away again. */
  lemma FailedWriterFrees(cfg: Client -> Settings, s: State, c: Client)
    requires At(s, c, Created) && Owns(s, c)
    ensures RunFrom(cfg, s, [WriteRecord(c, false), CleanUp(c)]) == s.(pc := s.pc[c := Done], file := None)
  {
    NothingRun(cfg, s);
    hide RunFrom;
    OneMore(cfg, s, [], WriteRecord(c, false));
    OneMore(cfg, s, [WriteRecord(c, false)], CleanUp(c));
    assert [] + [WriteRecord(c, false)] == [WriteRecord(c, false)];
    assert [WriteRecord(c, false)] + [CleanUp(c)] == [WriteRecord(c, false), CleanUp(c)];
    assert s.pc[c := WriteFailed][c := Done] == s.pc[c := Done];
  }

  /** Once the file is gone, a waiting caller gets in, wherever in its retry it stands. */
  lemma WaiterEnters(cfg: Client -> Settings, s: State, d: Client)
    requires s.file.None? && d in s.pc && s.pc[d] in {Trying, Contending, Judging, Breaking}
    ensures JoinsAlone(cfg, s, d)
  {
    NothingRun(cfg, s);
    hide RunFrom;
    var steps;
    match s.pc[d] {
      case Contending => steps := [Stat(d, false)];
      case Judging => steps := [ReadHolder(d, false, false, false)];
      case Breaking => steps := [Break(d, true)];
      case _ => steps := [];
    }
    if steps != [] {
      OneMore(cfg, s, [], steps[0]);
      assert [] + [steps[0]] == steps;
    }
    EnterFree(cfg, s, steps, d);
    var all := steps + [Open(d)] + [WriteRecord(d, true)];
    assert OnlyBy(all, d) && At(RunFrom(cfg, s, all), d, Inside);
  }

  // ----- the bound is met ---------------------------------------------------------------------------------

  /** The first n + 1 callers, all inside. */
  function Crowd(n: nat): (r: map<Client, Pc>)
    ensures forall c: nat :: c in r <==> c <= n
  {
    if n == 0 then map[n := Inside] else Crowd(n - 1)[n := Inside]
  }

  lemma {:induction false} CrowdSize(n: nat, s: State)
    requires s.pc == Crowd(n)
    ensures |Insiders(s)| == n + 1
  {
    if n == 0 {
      assert Insiders(s) == {0};
    } else {
      var t := s.(pc := Crowd(n - 1));
      CrowdSize(n - 1, t);
      assert Insiders(s) == Insiders(t) + {n};
    }
  }

  /** Wait until the file is past d's hard limit, then let d in. */
  lemma WaitAndJoin(cfg: Client -> Settings, before: seq<Action>, d: Client) returns (actions: seq<Action>)
    requires d !in Run(cfg, before).pc && Run(cfg, before).file.Some?
    ensures var s, t := Run(cfg, before), Run(cfg, actions);
            t.pc == s.pc[d := Inside] && t.breaks == s.breaks + 1 && t.file.Some?
  {
    hide Run, RunFrom;
    var s := Run(cfg, before);
    var wait := s.file.value.mtime - s.now + cfg(d).hardMs + 1;
    var tick := Tick(if wait > 0 then wait else 0);
    RunOn(cfg, before, [tick]);
    OneMore(cfg, s, [], tick);
    NothingRun(cfg, s);
    assert [] + [tick] == [tick];
    var t := Run(cfg, before + [tick]);
    assert t == s.(now := s.now + tick.ms);
    hide Step;
    JoinPastHardLimit(cfg, t, d);
    var more := [Start(d), Open(d), Stat(d, false), Break(d, true), Open(d), WriteRecord(d, true)];
    RunOn(cfg, before + [tick], more);
    actions := before + [tick] + more;
  }

  lemma NothingRun(cfg: Client -> Settings, s: State)
    ensures RunFrom(cfg, s, []) == s && Run(cfg, []) == INIT
  {
  }

  /** Whatever the limits, one caller after the other joins all who are inside. */
  lemma {:induction false} CrowdGrows(cfg: Client -> Settings, n: nat) returns (actions: seq<Action>)
    ensures Run(cfg, actions).pc == Crowd(n) && Run(cfg, actions).breaks == n && Run(cfg, actions).file.Some?
  {
    if n == 0 {
      actions := [Start(0), Open(0), WriteRecord(0, true)];
      NothingRun(cfg, INIT);
      hide Run, RunFrom, Step;
      JoinFree(cfg, INIT, 0);
      RunOn(cfg, [], actions);
      assert [] + actions == actions;
    } else {
      var before := CrowdGrows(cfg, n - 1);
      actions := WaitAndJoin(cfg, before, n);
      hide Run;
    }
  }

  /** The bound on the callers inside is met for every number of breaks, whatever the settings. */
  lemma BoundIsMet(cfg: Client -> Settings, n: nat)
    ensures exists actions :: Run(cfg, actions).breaks == n && |Insiders(Run(cfg, actions))| == 1 + n
  {
    var actions := CrowdGrows(cfg, n);
    CrowdSize(n, Run(cfg, actions));
  }
}
