/** The shared process-shutdown hook of src/shutdown-hook.ts. */
module ShutdownHook {
  import opened Options
  import opened Sequences

  datatype Signal = SIGINT | SIGTERM | BeforeExit

  datatype State = Idle | Running | Settled | Abandoned

  /** How a cleanup call ends at once: with nothing, with a throw, or with a promise. */
  datatype Answer = Nothing | Threw | Promised

  const SHUTDOWN_HOOK_BUDGET_MS := 5_000

  class Subscriber {
    const name: string
    var state: State

    constructor (name: string)
      ensures this.name == name && state == Idle
    {
      this.name := name;
      state := Idle;
    }
  }

  /** One invocation of a cleanup. */
  datatype Call = Call(sub: Subscriber, signal: Signal, answer: Answer)

  // ----- the history of calls -----------------------------------------------------------------------------

  /** A cleanup that ever returned a promise. */
  ghost predicate HasPromised(log: seq<Call>, sub: Subscriber) {
    exists i :: 0 <= i < |log| && log[i].sub == sub && log[i].answer.Promised?
  }

  /** After a promise a cleanup is never called again. */
  ghost predicate OneShot(log: seq<Call>) {
    forall i, j :: 0 <= i < j < |log| && log[i].sub == log[j].sub ==> !log[i].answer.Promised?
  }

  lemma CalledWhileIdle(log: seq<Call>, c: Call)
    requires OneShot(log) && !HasPromised(log, c.sub)
    ensures OneShot(log + [c])
    ensures forall s :: HasPromised(log + [c], s) <==> HasPromised(log, s) || (s == c.sub && c.answer.Promised?)
  {
    var all := log + [c];
    forall s
      ensures HasPromised(all, s) <==> HasPromised(log, s) || (s == c.sub && c.answer.Promised?)
    {
      if HasPromised(log, s) {
        var i :| 0 <= i < |log| && log[i].sub == s && log[i].answer.Promised?;
        assert all[i] == log[i];
      }
      if s == c.sub && c.answer.Promised? {
        assert all[|log|] == c;
      }
    }
  }

  function Without<T(==)>(s: seq<T>, x: T): (r: seq<T>)
    ensures forall y :: y in r ==> y in s && y != x
    ensures |r| <= |s|
  {
    if s == [] then [] else (if s[0] == x then [] else [s[0]]) + Without(s[1..], x)
  }

  lemma {:induction false} WithoutKeeps<T>(s: seq<T>, x: T)
    ensures forall y :: y in s && y != x ==> y in Without(s, x)
    ensures Distinct(s) ==> Distinct(Without(s, x))
    ensures x !in s ==> Without(s, x) == s
  {
    if s != [] {
      WithoutKeeps(s[1..], x);
      assert s == [s[0]] + s[1..];
      if Distinct(s) {
        assert Distinct(s[1..]) by {
          assert forall i :: 0 <= i < |s| - 1 ==> s[1..][i] == s[i + 1];
        }
        assert s[0] !in s[1..] by {
          assert forall i :: 0 <= i < |s| - 1 ==> s[1..][i] == s[i + 1] && s[i + 1] != s[0];
        }
      }
    }
  }

  lemma {:induction false} RemoveAt<T>(s: seq<T>, i: nat)
    requires i < |s| && Distinct(s)
    ensures s[..i] + s[i + 1..] == Without(s, s[i])
  {
    if i == 0 {
      WithoutKeeps(s[1..], s[0]);
      assert s[0] !in s[1..] by {
        assert forall k :: 0 <= k < |s| - 1 ==> s[1..][k] == s[k + 1] && s[k + 1] != s[0];
      }
    } else {
      assert s[1..][i - 1] == s[i];
      assert forall k :: 0 <= k < |s| - 1 ==> s[1..][k] == s[k + 1];
      RemoveAt(s[1..], i - 1);
      assert s[..i] + s[i + 1..] == [s[0]] + (s[1..][..i - 1] + s[1..][i..]);
    }
  }

  // ----- the hook --------------------------------------------------------------------------------------------

  /** The calls of one pass: those due, in order. */
  function Calls(due: seq<Subscriber>, signal: Signal, answers: Subscriber -> Answer): (r: seq<Call>)
    ensures |r| == |due|
    ensures forall i :: 0 <= i < |r| ==> r[i] == Call(due[i], signal, answers(due[i]))
  {
    seq(|due|, i requires 0 <= i < |due| => Call(due[i], signal, answers(due[i])))
  }

  /** Those of them a pass calls: the idle ones, in order. */
  function Due(subs: seq<Subscriber>, idle: set<Subscriber>): (r: seq<Subscriber>)
    ensures forall i :: 0 <= i < |r| ==> r[i] in subs && r[i] in idle
    ensures forall i :: 0 <= i < |subs| && subs[i] in idle ==> subs[i] in r
  {
    if subs == [] then []
    else Due(subs[..|subs| - 1], idle) + if subs[|subs| - 1] in idle then [subs[|subs| - 1]] else []
  }

  /** The deadline after these cleanups were called: the first promise sets it, once and for all. */
  function DeadlineAfter(was: Option<int>, due: seq<Subscriber>, answers: Subscriber -> Answer, clock: Subscriber -> int, budgetMs: nat): Option<int> {
    if due == [] then was
    else
      var before, last := DeadlineAfter(was, due[..|due| - 1], answers, clock, budgetMs), due[|due| - 1];
      if before.Some? || !answers(last).Promised? then before else Some(clock(last) + budgetMs)
  }

  /** A deadline there was stays, and nothing but a promise sets one. */
  lemma {:induction false} DeadlineStays(was: Option<int>, due: seq<Subscriber>, answers: Subscriber -> Answer, clock: Subscriber -> int, budgetMs: nat)
    requires was.Some? || forall i :: 0 <= i < |due| ==> !answers(due[i]).Promised?
    ensures DeadlineAfter(was, due, answers, clock, budgetMs) == was
  {
    if due != [] {
      DeadlineStays(was, due[..|due| - 1], answers, clock, budgetMs);
    }
  }

  /** The first promise sets the deadline to its own clock plus the budget. */
  lemma {:induction false} FirstPromiseSetsDeadline(due: seq<Subscriber>, i: nat, answers: Subscriber -> Answer, clock: Subscriber -> int, budgetMs: nat)
    requires i < |due| && answers(due[i]).Promised? && forall k :: 0 <= k < i ==> !answers(due[k]).Promised?
    ensures DeadlineAfter(None, due, answers, clock, budgetMs) == Some(clock(due[i]) + budgetMs)
    decreases |due|
  {
    var init := due[..|due| - 1];
    if i < |init| {
      FirstPromiseSetsDeadline(init, i, answers, clock, budgetMs);
    } else {
      DeadlineStays(None, init, answers, clock, budgetMs);
    }
  }

  lemma DeadlineOneMore(was: Option<int>, due: seq<Subscriber>, d: Subscriber, answers: Subscriber -> Answer, clock: Subscriber -> int, budgetMs: nat)
    ensures var before := DeadlineAfter(was, due, answers, clock, budgetMs);
            DeadlineAfter(was, due + [d], answers, clock, budgetMs)
            == if before.Some? || !answers(d).Promised? then before else Some(clock(d) + budgetMs)
  {
    assert (due + [d])[..|due|] == due;
  }

  /** None of the cleanups called unregistered s. */
  ghost predicate Survives(s: Subscriber, called: set<Subscriber>, drops: Subscriber -> seq<Subscriber>) {
    forall d :: d in called ==> s !in drops(d)
  }

  lemma SurvivesOneMore(s: Subscriber, called: set<Subscriber>, d: Subscriber, drops: Subscriber -> seq<Subscriber>)
    ensures Survives(s, called + {d}, drops) <==> Survives(s, called, drops) && s !in drops(d)
  {
  }

  /** The state after a pass in which these were called. */
  function StateAfter(s: Subscriber, called: set<Subscriber>, answers: Subscriber -> Answer, was: State): State {
    if s in called && answers(s).Promised? then Running else was
  }

  lemma StateOneMore(s: Subscriber, called: set<Subscriber>, d: Subscriber, answers: Subscriber -> Answer, was: State)
    ensures s != d ==> StateAfter(s, called + {d}, answers, was) == StateAfter(s, called, answers, was)
    ensures s == d && d !in called ==>
      StateAfter(s, called, answers, was) == was && StateAfter(s, called + {d}, answers, was) == if answers(d).Promised? then Running else was
  {
  }

  /** Only who is in the list matters. */
  lemma {:induction false} DueAmong(subs: seq<Subscriber>, idle: set<Subscriber>, among: set<Subscriber>)
    requires forall s :: s in subs ==> (s in idle <==> s in among)
    ensures Due(subs, idle) == Due(subs, among)
  {
    if subs != [] {
      DueAmong(subs[..|subs| - 1], idle, among);
    }
  }

  lemma DueSnoc(subs: seq<Subscriber>, i: nat, idle: set<Subscriber>, signal: Signal, answers: Subscriber -> Answer)
    requires i < |subs|
    ensures subs[i] !in idle ==> Due(subs[..i + 1], idle) == Due(subs[..i], idle)
    ensures subs[i] in idle ==> Due(subs[..i + 1], idle) == Due(subs[..i], idle) + [subs[i]]
    ensures subs[i] in idle ==>
      Calls(Due(subs[..i + 1], idle), signal, answers) == Calls(Due(subs[..i], idle), signal, answers) + [Call(subs[i], signal, answers(subs[i]))]
  {
    assert subs[..i + 1][..i] == subs[..i];
  }

  class Hook {
    var subscribers: seq<Subscriber>
    var sigintListener: bool
    var sigtermListener: bool
    var beforeExitListener: bool
    var deadline: Option<int>
    const budgetMs: nat
    /** Every subscriber there ever was, and every call of a cleanup. */
    ghost var known: set<Subscriber>
    ghost var log: seq<Call>

    ghost predicate Installed()
      reads this
    {
      sigintListener == sigtermListener == beforeExitListener == (subscribers != [])
    }

    /** States tell the history: idle means no promise so far, and a promise was the last call. */
    ghost predicate Faithful()
      reads this, known
    {
      && OneShot(log)
      && (forall s :: s in known ==> (s.state.Idle? <==> !HasPromised(log, s)))
      && (forall i :: 0 <= i < |log| ==> log[i].sub in known)
    }

    ghost predicate Valid()
      reads this, known
    {
      && Distinct(subscribers) && (forall s :: s in subscribers ==> s in known)
      && Installed() && Faithful()
    }

    constructor (budgetOverrideMs: Option<nat>)
      ensures Valid() && subscribers == [] && log == [] && known == {} && deadline == None
      ensures budgetMs == if budgetOverrideMs.Some? then budgetOverrideMs.value else SHUTDOWN_HOOK_BUDGET_MS
    {
      subscribers, sigintListener, sigtermListener, beforeExitListener := [], false, false, false;
      deadline, known, log := None, {}, [];
      budgetMs := if budgetOverrideMs.Some? then budgetOverrideMs.value else SHUTDOWN_HOOK_BUDGET_MS;
    }

    method Register(name: string) returns (sub: Subscriber)
      requires Valid()
      modifies this`subscribers, this`sigintListener, this`sigtermListener, this`beforeExitListener, this`known
      ensures Valid() && fresh(sub) && sub.name == name && sub.state == Idle
      ensures subscribers == old(subscribers) + [sub] && known == old(known) + {sub}
    {
      sub := new Subscriber(name);
      subscribers := subscribers + [sub];
      known := known + {sub};
      EnsureInstalled();
    }

    method EnsureInstalled()
      requires sigintListener == sigtermListener == beforeExitListener
      modifies this`sigintListener, this`sigtermListener, this`beforeExitListener
      ensures sigintListener && sigtermListener && beforeExitListener
    {
      if sigintListener {
        return;
      }
      sigintListener, sigtermListener, beforeExitListener := true, true, true;
    }

    method EnsureUninstalledIfIdle()
      modifies this`sigintListener, this`sigtermListener, this`beforeExitListener
      ensures subscribers == [] ==> !sigintListener && !sigtermListener && !beforeExitListener
      ensures subscribers != [] ==>
        sigintListener == old(sigintListener) && sigtermListener == old(sigtermListener) && beforeExitListener == old(beforeExitListener)
    {
      if |subscribers| > 0 {
        return;
      }
      if sigintListener {
        sigintListener := false;
      }
      if sigtermListener {
        sigtermListener := false;
      }
      if beforeExitListener {
        beforeExitListener := false;
      }
    }

    /** What the function that registering hands back does; a second call finds nothing to remove. */
    method Unregister(sub: Subscriber)
      requires Valid()
      modifies this`subscribers, this`sigintListener, this`sigtermListener, this`beforeExitListener
      ensures Valid() && subscribers == Without(old(subscribers), sub)
    {
      WithoutKeeps(subscribers, sub);
      var i := 0;
      while i < |subscribers| && subscribers[i] != sub
        invariant 0 <= i <= |subscribers| && forall k :: 0 <= k < i ==> subscribers[k] != sub
      {
        i := i + 1;
      }
      if i < |subscribers| {
        RemoveAt(subscribers, i);
        subscribers := subscribers[..i] + subscribers[i + 1..];
      }
      EnsureUninstalledIfIdle();
    }

    /** All waiting of one shutdown ends at the same moment, set when the first promise came in. */
    method RemainingBudgetMs(now: int) returns (ms: nat)
      modifies this`deadline
      ensures deadline == Some(if old(deadline).Some? then old(deadline).value else now + budgetMs)
      ensures now + ms == if deadline.value > now then deadline.value else now
    {
      if deadline.None? {
        deadline := Some(now + budgetMs);
      }
      ms := if deadline.value > now then deadline.value - now else 0;
    }

    /** Calls an idle cleanup; a promise takes it out of every later pass. */
    method RunSubscriber(sub: Subscriber, signal: Signal, answer: Answer, now: int) returns (timer: Option<int>)
      requires Valid() && sub in known
      modifies this`deadline, this`log, sub`state
      ensures Valid()
      ensures !old(sub.state).Idle? ==> log == old(log) && sub.state == old(sub.state) && timer == None && deadline == old(deadline)
      ensures old(sub.state).Idle? ==>
        && log == old(log) + [Call(sub, signal, answer)]
        && sub.state == (if answer.Promised? then Running else Idle)
        && (timer.Some? <==> answer.Promised?)
      ensures timer.Some? ==> deadline.Some? && timer.value == if deadline.value > now then deadline.value else now
      ensures deadline == if old(deadline).None? && old(sub.state).Idle? && answer.Promised? then Some(now + budgetMs) else old(deadline)
    {
      timer := None;
      if sub.state == Running || sub.state == Settled || sub.state == Abandoned {
        return;
      }
      CalledWhileIdle(log, Call(sub, signal, answer));
      log := log + [Call(sub, signal, answer)];
      if !answer.Promised? {
        return;
      }
      sub.state := Running;
      var remaining := RemainingBudgetMs(now);
      timer := Some(now + remaining);
    }

    /** The promise settled or rejected. */
    method Settle(sub: Subscriber)
      requires Valid() && sub in known && !sub.state.Idle?
      modifies sub`state
      ensures Valid() && sub.state == if old(sub.state).Running? then Settled else old(sub.state)
    {
      if sub.state == Running {
        sub.state := Settled;
      }
    }

    /** The budget ran out first. */
    method Expire(sub: Subscriber)
      requires Valid() && sub in known && !sub.state.Idle?
      modifies sub`state
      ensures Valid() && sub.state == if old(sub.state).Running? then Abandoned else old(sub.state)
    {
      if sub.state == Running {
        sub.state := Abandoned;
      }
    }

    /** The subscribers still waiting for their first promise. */
    ghost function IdleOnes(): (r: set<Subscriber>)
      reads this, subscribers
    {
      set s | s in subscribers && s.state.Idle?
    }

    method UnregisterAll(subs: seq<Subscriber>)
      requires Valid()
      modifies this`subscribers, this`sigintListener, this`sigtermListener, this`beforeExitListener
      ensures Valid() && forall s :: s in subscribers <==> s in old(subscribers) && s !in subs
    {
      for j := 0 to |subs|
        invariant Valid() && forall s :: s in subscribers <==> s in old(subscribers) && s !in subs[..j]
      {
        WithoutKeeps(subscribers, subs[j]);
        Unregister(subs[j]);
      }
      assert subs[..|subs|] == subs;
    }

    method RegisterAll(names: seq<string>)
      requires Valid()
      modifies this`subscribers, this`sigintListener, this`sigtermListener, this`beforeExitListener, this`known
      ensures Valid() && old(known) <= known && fresh(known - old(known))
      ensures forall s :: s in known - old(known) ==> s.state.Idle? && s in subscribers
      ensures forall s :: s in old(known) ==> (s in subscribers <==> s in old(subscribers))
    {
      for j := 0 to |names|
        invariant Valid() && old(known) <= known && fresh(known - old(known))
        invariant forall s :: s in known - old(known) ==> s.state.Idle? && s in subscribers
        invariant forall s :: s in old(known) ==> (s in subscribers <==> s in old(subscribers))
      {
        var _ := Register(names[j]);
      }
    }

    /** One subscriber's turn, with whatever its cleanup unregisters and registers. */
    method Visit(sub: Subscriber, signal: Signal, answer: Answer, toDrop: seq<Subscriber>, toJoin: seq<string>, now: int)
      requires Valid() && sub in known
      modifies this`subscribers, this`sigintListener, this`sigtermListener, this`beforeExitListener
      modifies this`deadline, this`log, this`known, sub`state
      ensures Valid() && old(known) <= known && fresh(known - old(known))
      ensures log == if old(sub.state).Idle? then old(log) + [Call(sub, signal, answer)] else old(log)
      ensures sub.state == if old(sub.state).Idle? && answer.Promised? then Running else old(sub.state)
      ensures deadline == if old(deadline).None? && old(sub.state).Idle? && answer.Promised? then Some(now + budgetMs) else old(deadline)
      ensures forall s :: s in old(known) ==> (s in subscribers <==> s in old(subscribers) && (old(sub.state).Idle? ==> s !in toDrop))
      ensures forall s :: s in known - old(known) ==> s.state.Idle? && s in subscribers
    {
      if sub.state == Idle {
        var _ := RunSubscriber(sub, signal, answer, now);
        UnregisterAll(toDrop);
        RegisterAll(toJoin);
      }
    }

    /** A pass over the snapshot after i turns; `was` are the states it found and log0 the log. */
    ghost predicate Pass(snapshot: seq<Subscriber>, i: nat, was: map<Subscriber, State>, log0: seq<Call>,
                         signal: Signal, answers: Subscriber -> Answer, drops: Subscriber -> seq<Subscriber>,
                         clock: Subscriber -> int, deadline0: Option<int>)
      requires i <= |snapshot|
      reads this, known
    {
      var idle := set s | s in was && was[s].Idle?;
      var called := set s | s in snapshot[..i] && s in idle;
      && Valid() && was.Keys <= known && Distinct(snapshot) && (forall k :: 0 <= k < |snapshot| ==> snapshot[k] in was)
      && log == log0 + Calls(Due(snapshot[..i], idle), signal, answers)
      && deadline == DeadlineAfter(deadline0, Due(snapshot[..i], idle), answers, clock, budgetMs)
      && (forall s :: s in was ==> s.state == StateAfter(s, called, answers, was[s]))
      && (forall s :: s in was ==> (s in subscribers <==> s in snapshot && Survives(s, called, drops)))
    }

    /** Whoever came during the pass waits for the next one. */
    ghost predicate Newcomers(was: map<Subscriber, State>)
      reads this, known
    {
      forall s :: s in known && s !in was ==> s.state.Idle?
    }

    lemma CalledGrows(snapshot: seq<Subscriber>, i: nat, idle: set<Subscriber>, called: set<Subscriber>, called': set<Subscriber>)
      requires i < |snapshot| && Distinct(snapshot)
      requires called == (set s | s in snapshot[..i] && s in idle) && called' == (set s | s in snapshot[..i + 1] && s in idle)
      ensures snapshot[i] !in called && called' == if snapshot[i] in idle then called + {snapshot[i]} else called
    {
      assert snapshot[..i + 1] == snapshot[..i] + [snapshot[i]];
    }

    method Turn(snapshot: seq<Subscriber>, i: nat, signal: Signal, answers: Subscriber -> Answer,
                drops: Subscriber -> seq<Subscriber>, joins: Subscriber -> seq<string>, clock: Subscriber -> int,
                ghost was: map<Subscriber, State>, ghost log0: seq<Call>, ghost deadline0: Option<int>)
      requires i < |snapshot| && Pass(snapshot, i, was, log0, signal, answers, drops, clock, deadline0) && Newcomers(was)
      modifies this`subscribers, this`sigintListener, this`sigtermListener, this`beforeExitListener
      modifies this`deadline, this`log, this`known, set s | s in was
      ensures Valid() && old(known) <= known && fresh(known - old(known))
      ensures Pass(snapshot, i + 1, was, log0, signal, answers, drops, clock, deadline0) && Newcomers(was)
    {
      hide Due, Calls, Valid, Survives, Distinct, StateAfter, DeadlineAfter;
      var sub := snapshot[i];
      ghost var idle := set s | s in was && was[s].Idle?;
      ghost var called, called' := set s | s in snapshot[..i] && s in idle, set s | s in snapshot[..i + 1] && s in idle;
      CalledGrows(snapshot, i, idle, called, called');
      DueSnoc(snapshot, i, idle, signal, answers);
      DeadlineOneMore(deadline0, Due(snapshot[..i], idle), sub, answers, clock, budgetMs);
      Assoc(log0, Calls(Due(snapshot[..i], idle), signal, answers), [Call(sub, signal, answers(sub))]);
      forall s | s in was
        ensures Survives(s, called + {sub}, drops) <==> Survives(s, called, drops) && s !in drops(sub)
        ensures s != sub ==> StateAfter(s, called + {sub}, answers, was[s]) == StateAfter(s, called, answers, was[s])
      {
        SurvivesOneMore(s, called, sub, drops);
        StateOneMore(s, called, sub, answers, was[s]);
      }
      StateOneMore(sub, called, sub, answers, was[sub]);
      assert sub in idle <==> sub.state.Idle?;
      Visit(sub, signal, answers(sub), drops(sub), joins(sub), clock(sub));
    }

    /** A pass that went over the whole snapshot. */
    lemma PassDone(snapshot: seq<Subscriber>, was: map<Subscriber, State>, log0: seq<Call>, signal: Signal, answers: Subscriber -> Answer,
                   drops: Subscriber -> seq<Subscriber>, clock: Subscriber -> int, deadline0: Option<int>, idle: set<Subscriber>)
      requires Pass(snapshot, |snapshot|, was, log0, signal, answers, drops, clock, deadline0)
      requires idle == set s | s in snapshot && s in was && was[s].Idle?
      ensures log == log0 + Calls(Due(snapshot, idle), signal, answers)
      ensures deadline == DeadlineAfter(deadline0, Due(snapshot, idle), answers, clock, budgetMs)
      ensures forall s :: s in was ==> s.state == StateAfter(s, idle, answers, was[s])
      ensures forall s :: s in was ==> (s in subscribers <==> s in snapshot && Survives(s, idle, drops))
    {
      hide Due, Calls, Valid, Survives, Distinct, StateAfter, DeadlineAfter;
      var allIdle := set s | s in was && was[s].Idle?;
      assert snapshot[..|snapshot|] == snapshot;
      assert idle == set s | s in snapshot && s in allIdle;
      DueAmong(snapshot, allIdle, idle);
    }

    /**
      One signal. Cleanups may unregister any subscriber, themselves included, and register new ones;
      the pass goes over the subscribers there were when it began.
     */
    method Dispatch(signal: Signal, answers: Subscriber -> Answer, drops: Subscriber -> seq<Subscriber>,
                    joins: Subscriber -> seq<string>, clock: Subscriber -> int)
      requires Valid()
      modifies this`subscribers, this`sigintListener, this`sigtermListener, this`beforeExitListener
      modifies this`deadline, this`log, this`known, known
      ensures Valid() && old(known) <= known && fresh(known - old(known))
      ensures log == old(log) + Calls(Due(old(subscribers), old(IdleOnes())), signal, answers)
      ensures deadline == DeadlineAfter(old(deadline), Due(old(subscribers), old(IdleOnes())), answers, clock, budgetMs)
      ensures forall s :: s in old(known) ==>
        s.state == if s in old(subscribers) && old(s.state).Idle? && answers(s).Promised? then Running else old(s.state)
      ensures forall s :: s in known - old(known) ==> s.state.Idle?
      ensures forall s :: s in old(known) ==> (s in subscribers <==> s in old(subscribers) && Survives(s, old(IdleOnes()), drops))
    {
      var snapshot := subscribers;
      ghost var log0, deadline0, idle := log, deadline, IdleOnes();
      ghost var was := map s | s in known :: s.state;
      assert Pass(snapshot, 0, was, log0, signal, answers, drops, clock, deadline0);
      hide Pass, Due, Calls, Survives, Distinct, DeadlineAfter, Faithful, Installed;
      for i := 0 to |snapshot|
        invariant Valid() && old(known) <= known && fresh(known - old(known))
        invariant Pass(snapshot, i, was, log0, signal, answers, drops, clock, deadline0) && Newcomers(was)
      {
        Turn(snapshot, i, signal, answers, drops, joins, clock, was, log0, deadline0);
      }
      PassDone(snapshot, was, log0, signal, answers, drops, clock, deadline0, idle);
    }
  }
}
