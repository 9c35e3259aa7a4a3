/** A batch activation of src/adt/activate.ts: its chunks posted one after the other, each answering or throwing. */
module ActivationBatch {
  import opened Options
  import opened Sequences
  import opened ActivationTargets
  import opened Attribution

  datatype Severity = Failure | Warning | Other

  /** A message, or an inactive entry, whose name stands in for the label. */
  datatype Report = Report(signals: Signals, severity: Severity, text: string)

  /** What a chunk's requests came to; `failed` is an explicit refusal. */
  datatype Reply = Threw | Answered(failed: bool, messages: seq<Report>, inactive: seq<Report>, preaudit: seq<Report>)

  datatype Disposition = Activated | NotActivated | Unknown | NotSent

  datatype ObjectActivation = ObjectActivation(
    target: Target, activated: bool, ok: bool, disposition: Disposition, messages: seq<Report>, inactive: seq<Report>)

  datatype Outcome = Outcome(
    activated: bool, ok: bool, messages: seq<Report>, inactive: seq<Report>, preaudit: seq<Report>,
    perObject: seq<ObjectActivation>, unattributed: seq<Report>, unattributedInactive: seq<Report>)

  datatype Result =
    | Empty
    | TooMany
    | Duplicate(at: nat)
    | Failed(dispositions: seq<Disposition>, released: bool)
    | Done(outcome: Outcome, released: bool)

  const MAX_ACTIVATION_BATCH := 50

  // ----- reading replies ------------------------------------------------------------------------------------

  function Errors(reports: seq<Report>): nat {
    if reports == [] then 0 else Errors(reports[..|reports| - 1]) + if reports[|reports| - 1].severity.Failure? then 1 else 0
  }

  function Warnings(reports: seq<Report>): nat {
    if reports == [] then 0 else Warnings(reports[..|reports| - 1]) + if reports[|reports| - 1].severity.Warning? then 1 else 0
  }

  method Tally(reports: seq<Report>) returns (errors: nat, warnings: nat)
    ensures errors == Errors(reports) && warnings == Warnings(reports)
    ensures errors + warnings <= |reports|
  {
    errors, warnings := 0, 0;
    for i := 0 to |reports|
      invariant errors == Errors(reports[..i]) && warnings == Warnings(reports[..i]) && errors + warnings <= i
    {
      assert reports[..i + 1][..i] == reports[..i];
      if reports[i].severity.Failure? {
        errors := errors + 1;
      } else if reports[i].severity.Warning? {
        warnings := warnings + 1;
      }
    }
    assert reports[..|reports|] == reports;
  }

  /** The success signal of one reply. */
  predicate Clean(reply: Reply) {
    reply.Answered? && !reply.failed && Errors(reply.messages) == 0 && reply.inactive == []
  }

  /** How many chunks answered before one threw. */
  function AnsweredCount(replies: seq<Reply>): (n: nat)
    ensures n <= |replies|
    ensures forall j :: 0 <= j < n ==> replies[j].Answered?
    ensures n < |replies| ==> replies[n].Threw?
  {
    if replies == [] || replies[0].Threw? then 0 else 1 + AnsweredCount(replies[1..])
  }

  function MessagesOf(replies: seq<Reply>): seq<Report> {
    if replies == [] then []
    else MessagesOf(replies[..|replies| - 1]) + if replies[|replies| - 1].Answered? then replies[|replies| - 1].messages else []
  }

  function InactiveOf(replies: seq<Reply>): seq<Report> {
    if replies == [] then []
    else InactiveOf(replies[..|replies| - 1]) + if replies[|replies| - 1].Answered? then replies[|replies| - 1].inactive else []
  }

  function PreauditOf(replies: seq<Reply>): seq<Report> {
    if replies == [] then []
    else PreauditOf(replies[..|replies| - 1]) + if replies[|replies| - 1].Answered? then replies[|replies| - 1].preaudit else []
  }

  // ----- sorting reports by owner ------------------------------------------------------------------------------

  datatype Batch = Batch(casing: Case, targets: seq<Target>) {
    function Owner(r: Report): Option<Target> {
      OwnerOf(casing, r.signals, targets)
    }
  }

  /** The reports of one owner, in order; None is nobody's. */
  function Owned(b: Batch, reports: seq<Report>, owner: Option<Target>): (r: seq<Report>)
    ensures forall x :: x in r ==> x in reports
  {
    if reports == [] then []
    else
      Owned(b, reports[..|reports| - 1], owner)
      + if b.Owner(reports[|reports| - 1]) == owner then [reports[|reports| - 1]] else []
  }

  type Buckets = map<Target, seq<Report>>

  /** Buckets hold exactly each target's own reports, and rest nobody's. */
  ghost predicate Sorted(b: Batch, reports: seq<Report>, buckets: Buckets, rest: seq<Report>) {
    && (forall t :: t in buckets <==> t in b.targets)
    && (forall t :: t in buckets ==> buckets[t] == Owned(b, reports, Some(t)))
    && rest == Owned(b, reports, None)
  }

  lemma OwnedSnoc(b: Batch, reports: seq<Report>, r: Report, owner: Option<Target>)
    ensures Owned(b, reports + [r], owner) == Owned(b, reports, owner) + if b.Owner(r) == owner then [r] else []
  {
    assert (reports + [r])[..|reports|] == reports;
  }

  lemma SortOne(b: Batch, reports: seq<Report>, r: Report, buckets: Buckets, rest: seq<Report>)
    requires Sorted(b, reports, buckets, rest) && (b.Owner(r).Some? ==> b.Owner(r).value in buckets)
    ensures match b.Owner(r)
            case Some(t) => Sorted(b, reports + [r], buckets[t := buckets[t] + [r]], rest)
            case None => Sorted(b, reports + [r], buckets, rest + [r])
  {
    hide Owned, b.Owner;
    forall owner ensures Owned(b, reports + [r], owner) == Owned(b, reports, owner) + if b.Owner(r) == owner then [r] else [] {
      OwnedSnoc(b, reports, r, owner);
    }
  }

  lemma OwnerIsATarget(b: Batch, r: Report)
    ensures b.Owner(r).Some? ==> b.Owner(r).value in b.targets
  {
    var href, descr := NormaliseAdtUri(b.casing, r.signals.uri), b.casing.upper(r.signals.objDescr);
    BestIsLongest(b.casing, href, b.targets);
    MentionedIff(b.casing, descr, b.targets);
  }

  method Distribute(b: Batch, ghost before: seq<Report>, reports: seq<Report>, buckets: Buckets, rest: seq<Report>)
    returns (buckets': Buckets, rest': seq<Report>)
    requires Sorted(b, before, buckets, rest)
    ensures Sorted(b, before + reports, buckets', rest')
  {
    hide Sorted, b.Owner;
    buckets', rest' := buckets, rest;
    assert before + reports[..0] == before;
    for i := 0 to |reports|
      invariant Sorted(b, before + reports[..i], buckets', rest')
    {
      var owner := AttributeToTarget(b.casing, reports[i].signals, b.targets);
      OwnerIsATarget(b, reports[i]);
      assert owner == b.Owner(reports[i]) by {
        OwnerUnfolds(b, reports[i]);
      }
      HasBuckets(b, before + reports[..i], buckets', rest');
      SortOne(b, before + reports[..i], reports[i], buckets', rest');
      assert (before + reports[..i]) + [reports[i]] == before + reports[..i + 1];
      match owner {
        case Some(t) => buckets' := buckets'[t := buckets'[t] + [reports[i]]];
        case None => rest' := rest' + [reports[i]];
      }
    }
    assert reports[..|reports|] == reports;
  }

  lemma OwnerUnfolds(b: Batch, r: Report)
    ensures b.Owner(r) == OwnerOf(b.casing, r.signals, b.targets)
  {
  }

  lemma HasBuckets(b: Batch, reports: seq<Report>, buckets: Buckets, rest: seq<Report>)
    requires Sorted(b, reports, buckets, rest)
    ensures forall t :: t in b.targets <==> t in buckets
  {
  }

  // ----- the parts make up the whole ---------------------------------------------------------------------------

  /** How often a report is listed under these targets. */
  function TimesOwned(b: Batch, reports: seq<Report>, targets: seq<Target>, x: Report): nat {
    if targets == [] then 0
    else TimesOwned(b, reports, targets[..|targets| - 1], x) + Times(Owned(b, reports, Some(targets[|targets| - 1])), x)
  }

  /** One more report adds itself to its owner and nothing to anybody else. */
  lemma OwnedGrows(b: Batch, reports: seq<Report>, r: Report, owner: Option<Target>, x: Report)
    ensures Times(Owned(b, reports + [r], owner), x)
         == Times(Owned(b, reports, owner), x) + if b.Owner(r) == owner && r == x then 1 else 0
  {
    OwnedSnoc(b, reports, r, owner);
    var was := Owned(b, reports, owner);
    TimesSnoc(was, r, x);
    hide Owned, b.Owner, Times;
    assert was + [] == was;
  }

  lemma {:induction false} TimesOwnedSnoc(b: Batch, reports: seq<Report>, r: Report, targets: seq<Target>, x: Report)
    requires Distinct(targets)
    ensures TimesOwned(b, reports + [r], targets, x)
         == TimesOwned(b, reports, targets, x) + if b.Owner(r).Some? && b.Owner(r).value in targets && r == x then 1 else 0
  {
    if targets != [] {
      hide Owned, b.Owner, Times, Distinct;
      var init, last := targets[..|targets| - 1], targets[|targets| - 1];
      var owner := b.Owner(r);
      LastIsNew(targets, if owner.Some? then owner.value else last);
      TimesOwnedSnoc(b, reports, r, init, x);
      OwnedGrows(b, reports, r, Some(last), x);
    }
  }

  lemma OneMoreReport(b: Batch, reports: seq<Report>, r: Report, x: Report)
    requires Distinct(b.targets)
    requires Times(reports, x) == TimesOwned(b, reports, b.targets, x) + Times(Owned(b, reports, None), x)
    ensures Times(reports + [r], x) == TimesOwned(b, reports + [r], b.targets, x) + Times(Owned(b, reports + [r], None), x)
  {
    hide Owned, TimesOwned, b.Owner, Distinct, Times;
    TimesOwnedSnoc(b, reports, r, b.targets, x);
    OwnedGrows(b, reports, r, None, x);
    TimesSnoc(reports, r, x);
    OwnerIsATarget(b, r);
  }

  /** Every report is listed under exactly one object or under none: together they are all of them. */
  lemma {:induction false} ReportsArePartitioned(b: Batch, reports: seq<Report>, x: Report)
    requires Distinct(b.targets)
    ensures Times(reports, x) == TimesOwned(b, reports, b.targets, x) + Times(Owned(b, reports, None), x)
  {
    hide Owned, TimesOwned, b.Owner, Distinct, Times;
    if reports == [] {
      NothingReported(b, x);
    } else {
      var init, last := reports[..|reports| - 1], reports[|reports| - 1];
      ReportsArePartitioned(b, init, x);
      OneMoreReport(b, init, last, x);
      assert reports == init + [last];
    }
  }

  lemma NothingReported(b: Batch, x: Report)
    ensures Times([], x) == TimesOwned(b, [], b.targets, x) + Times(Owned(b, [], None), x)
  {
    NothingOwned(b, b.targets, x);
    hide TimesOwned;
  }

  lemma {:induction false} NothingOwned(b: Batch, targets: seq<Target>, x: Report)
    ensures TimesOwned(b, [], targets, x) == 0
  {
    if targets != [] {
      NothingOwned(b, targets[..|targets| - 1], x);
    }
  }

  lemma {:induction false} ErrorsIff(reports: seq<Report>)
    ensures Errors(reports) == 0 <==> forall r :: r in reports ==> !r.severity.Failure?
  {
    if reports != [] {
      var init, last := reports[..|reports| - 1], reports[|reports| - 1];
      ErrorsIff(init);
      assert reports == init + [last];
    }
  }

  // ----- the batch -----------------------------------------------------------------------------------------------

  /** Nothing in the replies is held against this object. */
  predicate Blameless(b: Batch, replies: seq<Reply>, t: Target) {
    Errors(Owned(b, MessagesOf(replies), Some(t))) == 0 && Owned(b, InactiveOf(replies), Some(t)) == []
  }

  lemma {:induction false} OwnedIff(b: Batch, reports: seq<Report>, owner: Option<Target>, r: Report)
    ensures r in Owned(b, reports, owner) <==> r in reports && b.Owner(r) == owner
  {
    if reports != [] {
      var init, last := reports[..|reports| - 1], reports[|reports| - 1];
      OwnedIff(b, init, owner, r);
      assert reports == init + [last];
    }
  }

  /** An object is blameless exactly if no failure and no inactive entry in any reply is its own. */
  lemma BlamelessIff(b: Batch, replies: seq<Reply>, t: Target)
    ensures Blameless(b, replies, t) <==>
              && (forall r :: r in MessagesOf(replies) && r.severity.Failure? ==> b.Owner(r) != Some(t))
              && (forall r :: r in InactiveOf(replies) ==> b.Owner(r) != Some(t))
  {
    var own, stale := Owned(b, MessagesOf(replies), Some(t)), Owned(b, InactiveOf(replies), Some(t));
    ErrorsIff(own);
    forall r
      ensures r in own <==> r in MessagesOf(replies) && b.Owner(r) == Some(t)
      ensures r in stale <==> r in InactiveOf(replies) && b.Owner(r) == Some(t)
    {
      OwnedIff(b, MessagesOf(replies), Some(t), r);
      OwnedIff(b, InactiveOf(replies), Some(t), r);
    }
    hide Owned, Errors, MessagesOf, InactiveOf, b.Owner;
    if stale == [] {
    } else {
      assert stale[0] in stale;
    }
  }

  /** A failure reported inside an object, with nothing closer around it, is held against that object. */
  lemma InnerFailureBlames(b: Batch, replies: seq<Reply>, r: Report, t: Target, inner: string, position: string)
    requires r in MessagesOf(replies) && r.severity.Failure? && t in b.targets
    requires Segmentwise(b.casing) && exists i :: 0 <= i < |t.uri| && t.uri[i] != '/'
    requires '#' !in t.uri && '?' !in t.uri && '#' !in inner && '?' !in inner
    requires r.signals.uri == t.uri + "/" + inner + "#" + ("start=" + position)
    requires forall u :: u in b.targets && u != t && Under(NormaliseAdtUri(b.casing, r.signals.uri), KeyOf(b.casing, u))
                         ==> |KeyOf(b.casing, u)| < |KeyOf(b.casing, t)|
    ensures !Blameless(b, replies, t)
  {
    InnerMessageIsOwned(b.casing, r.signals, b.targets, t, inner, position);
    OwnerUnfolds(b, r);
    hide MessagesOf, InactiveOf, b.Owner, OwnerOf, Under, Segmentwise, NormaliseAdtUri, KeyOf;
    BlamelessIff(b, replies, t);
    hide Blameless;
  }

  /** What is established about an object of chunk j when n chunks have answered. */
  function DispositionIn(b: Batch, replies: seq<Reply>, n: nat, j: nat, t: Target): Disposition
    requires n <= |replies|
  {
    if j < n then
      if Clean(replies[j]) && Blameless(b, replies[..n], t) then Activated else NotActivated
    else if j == n then Unknown
    else NotSent
  }

  /** The same, before anybody looks at blame: settled by the object's own chunk. */
  function OwnChunkSays(replies: seq<Reply>, n: nat, threw: bool, j: nat): Disposition
    requires n <= |replies|
  {
    if j < n then if Clean(replies[j]) then Activated else NotActivated
    else if j == n && threw then Unknown
    else NotSent
  }

  ghost predicate Disposed(chunks: seq<seq<Target>>, replies: seq<Reply>, n: nat, threw: bool, disposition: map<Target, Disposition>)
    requires n <= |replies|
  {
    forall j, t :: 0 <= j < |chunks| && t in chunks[j] ==> t in disposition && disposition[t] == OwnChunkSays(replies, n, threw, j)
  }

  /** No object is in two chunks. */
  ghost predicate Separate(chunks: seq<seq<Target>>) {
    forall i, j, t :: 0 <= i < j < |chunks| && t in chunks[i] ==> t !in chunks[j]
  }

  method Dispose(chunk: seq<Target>, d: Disposition, was: map<Target, Disposition>) returns (disposition: map<Target, Disposition>)
    ensures disposition == was + map t | t in chunk :: d
  {
    disposition := was;
    for i := 0 to |chunk|
      invariant disposition == was + map t | t in chunk[..i] :: d
    {
      disposition := disposition[chunk[i] := d];
      assert forall t :: t in chunk[..i + 1] <==> t in chunk[..i] || t == chunk[i];
    }
    assert chunk[..|chunk|] == chunk;
  }

  lemma DisposeChunk(chunks: seq<seq<Target>>, replies: seq<Reply>, n: nat, was: map<Target, Disposition>, d: Disposition)
    requires n < |chunks| == |replies| && Separate(chunks) && Disposed(chunks, replies, n, false, was)
    ensures var now := was + map t | t in chunks[n] :: d;
            && (d == OwnChunkSays(replies, n + 1, false, n) && replies[n].Answered? ==> Disposed(chunks, replies, n + 1, false, now))
            && (d == Unknown ==> Disposed(chunks, replies, n, true, now))
  {
    hide Clean;
    forall j, t | 0 <= j < |chunks| && t in chunks[j] && j != n
      ensures t !in chunks[n]
    {
      if j < n {
        assert t in chunks[j];
      }
    }
  }

  /** One request per chunk, answered by an oracle. */
  function RepliesTo(post: seq<Target> -> Reply, chunks: seq<seq<Target>>): (r: seq<Reply>)
    ensures |r| == |chunks| && forall j :: 0 <= j < |chunks| ==> r[j] == post(chunks[j])
  {
    seq(|chunks|, j requires 0 <= j < |chunks| => post(chunks[j]))
  }

  predicate AllClean(replies: seq<Reply>) {
    forall j :: 0 <= j < |replies| ==> Clean(replies[j])
  }

  predicate AnyFailed(replies: seq<Reply>) {
    exists j :: 0 <= j < |replies| && replies[j].Answered? && replies[j].failed
  }

  lemma {:induction false} ErrorsConcat(a: seq<Report>, b: seq<Report>)
    ensures Errors(a + b) == Errors(a) + Errors(b)
  {
    if b == [] {
      assert a + b == a;
    } else {
      ErrorsConcat(a, b[..|b| - 1]);
      assert (a + b)[..|a + b| - 1] == a + b[..|b| - 1];
    }
  }

  lemma AllCleanSnoc(replies: seq<Reply>, last: Reply)
    requires last.Answered?
    ensures AllClean(replies + [last]) <==> AllClean(replies) && Clean(last)
    ensures AnyFailed(replies + [last]) <==> AnyFailed(replies) || last.failed
  {
    hide Clean;
    var all := replies + [last];
    assert all[|replies|] == last;
    if AnyFailed(replies) {
      var j :| 0 <= j < |replies| && replies[j].Answered? && replies[j].failed;
      assert all[j].failed;
    }
    if AllClean(all) {
      assert forall j :: 0 <= j < |replies| ==> replies[j] == all[j];
    }
  }

  /** The batch verdict, computed from totals, is that every chunk answered clean. */
  lemma {:induction false} CleanByTotals(replies: seq<Reply>)
    requires forall j :: 0 <= j < |replies| ==> replies[j].Answered?
    ensures AllClean(replies) <==> !AnyFailed(replies) && Errors(MessagesOf(replies)) == 0 && InactiveOf(replies) == []
  {
    if replies != [] {
      var init, last := replies[..|replies| - 1], replies[|replies| - 1];
      CleanByTotals(init);
      ErrorsConcat(MessagesOf(init), last.messages);
      AllCleanSnoc(init, last);
      hide AllClean, AnyFailed, Errors;
      assert init + [last] == replies;
    }
  }

  lemma {:induction false} AnsweredIs(replies: seq<Reply>, n: nat)
    requires n <= |replies| && forall j :: 0 <= j < n ==> replies[j].Answered?
    requires n < |replies| ==> replies[n].Threw?
    ensures AnsweredCount(replies) == n
  {
    if n > 0 {
      AnsweredIs(replies[1..], n - 1);
    }
  }

  /** The running totals after some answered chunks. */
  datatype Totals = Totals(
    messages: seq<Report>, inactive: seq<Report>, preaudit: seq<Report>, anyFailed: bool,
    messageBuckets: Buckets, unattributed: seq<Report>, inactiveBuckets: Buckets, unattributedInactive: seq<Report>)

  ghost predicate Totalled(b: Batch, replies: seq<Reply>, x: Totals) {
    && x.messages == MessagesOf(replies) && x.inactive == InactiveOf(replies) && x.preaudit == PreauditOf(replies)
    && x.anyFailed == AnyFailed(replies)
    && Sorted(b, x.messages, x.messageBuckets, x.unattributed)
    && Sorted(b, x.inactive, x.inactiveBuckets, x.unattributedInactive)
  }

  method AddReply(b: Batch, ghost before: seq<Reply>, x: Totals, reply: Reply) returns (y: Totals)
    requires reply.Answered? && Totalled(b, before, x)
    ensures Totalled(b, before + [reply], y)
  {
    hide Sorted;
    assert (before + [reply])[..|before|] == before;
    assert AnyFailed(before + [reply]) <==> AnyFailed(before) || reply.failed by {
      if reply.failed {
        assert (before + [reply])[|before|].failed;
      }
      if AnyFailed(before) {
        var j :| 0 <= j < |before| && before[j].Answered? && before[j].failed;
        assert (before + [reply])[j].failed;
      }
    }
    var messageBuckets, unattributed := Distribute(b, x.messages, reply.messages, x.messageBuckets, x.unattributed);
    var inactiveBuckets, unattributedInactive := Distribute(b, x.inactive, reply.inactive, x.inactiveBuckets, x.unattributedInactive);
    y := Totals(x.messages + reply.messages, x.inactive + reply.inactive, x.preaudit + reply.preaudit, x.anyFailed || reply.failed,
                messageBuckets, unattributed, inactiveBuckets, unattributedInactive);
  }

  method NewTotals(b: Batch) returns (x: Totals)
    ensures Totalled(b, [], x)
  {
    var empty: Buckets := map t | t in b.targets :: [];
    x := Totals([], [], [], false, empty, [], empty, []);
  }

  /** Posts the chunks in order until one throws. */
  method PostChunks(b: Batch, post: seq<Target> -> Reply, chunks: seq<seq<Target>>)
    returns (x: Totals, disposition: map<Target, Disposition>, n: nat)
    requires Separate(chunks) && forall t :: t in b.targets <==> exists j :: 0 <= j < |chunks| && t in chunks[j]
    ensures n == AnsweredCount(RepliesTo(post, chunks))
    ensures Totalled(b, RepliesTo(post, chunks)[..n], x)
    ensures Disposed(chunks, RepliesTo(post, chunks), n, n < |chunks|, disposition)
  {
    hide Totalled, Clean, Separate;
    ghost var replies := RepliesTo(post, chunks);
    x := NewTotals(b);
    disposition := map t | t in b.targets :: NotSent;
    n := 0;
    var threw := false;
    assert replies[..0] == [];
    while n < |chunks| && !threw
      invariant n <= |chunks| && forall j :: 0 <= j < n ==> replies[j].Answered?
      invariant threw ==> n < |chunks| && replies[n].Threw?
      invariant Totalled(b, replies[..n], x)
      invariant Disposed(chunks, replies, n, threw, disposition)
      decreases |chunks| - n, !threw
    {
      hide Disposed;
      var reply := post(chunks[n]);
      if reply.Threw? {
        DisposeChunk(chunks, replies, n, disposition, Unknown);
        disposition := Dispose(chunks[n], Unknown, disposition);
        threw := true;
      } else {
        x := AddReply(b, replies[..n], x, reply);
        assert replies[..n] + [reply] == replies[..n + 1];
        var clean := IsClean(reply);
        var d := if clean then Activated else NotActivated;
        DisposeChunk(chunks, replies, n, disposition, d);
        disposition := Dispose(chunks[n], d, disposition);
        n := n + 1;
      }
    }
    AnsweredIs(replies, n);
  }

  method IsClean(reply: Reply) returns (clean: bool)
    requires reply.Answered?
    ensures clean <==> Clean(reply)
  {
    var errors, _ := Tally(reply.messages);
    clean := !reply.failed && errors == 0 && |reply.inactive| == 0;
  }

  // ----- the outcome ------------------------------------------------------------------------------------------

  /** What the result must say about the object at position i. */
  ghost predicate Tells(b: Batch, replies: seq<Reply>, activated: bool, o: ObjectActivation, t: Target)
  {
    && o.target == t
    && o.messages == Owned(b, MessagesOf(replies), Some(t)) && o.inactive == Owned(b, InactiveOf(replies), Some(t))
    && o.ok == Blameless(b, replies, t) && o.activated == (activated && Blameless(b, replies, t))
  }

  method Present(b: Batch, ghost replies: seq<Reply>, x: Totals, disposition: map<Target, Disposition>, activated: bool)
    returns (perObject: seq<ObjectActivation>)
    requires Totalled(b, replies, x) && forall t :: t in b.targets ==> t in disposition
    ensures |perObject| == |b.targets|
    ensures forall i :: 0 <= i < |perObject| ==> Tells(b, replies, activated, perObject[i], b.targets[i])
    ensures forall i :: 0 <= i < |perObject| ==>
      perObject[i].disposition == Blamed(disposition[b.targets[i]], Blameless(b, replies, b.targets[i]))
  {
    hide Owned, MessagesOf, InactiveOf;
    perObject := [];
    for i := 0 to |b.targets|
      invariant |perObject| == i
      invariant forall k :: 0 <= k < i ==> Tells(b, replies, activated, perObject[k], b.targets[k])
      invariant forall k :: 0 <= k < i ==>
        perObject[k].disposition == Blamed(disposition[b.targets[k]], Blameless(b, replies, b.targets[k]))
    {
      var t := b.targets[i];
      var messages, inactive := x.messageBuckets[t], x.inactiveBuckets[t];
      var errors, _ := Tally(messages);
      var ok := errors == 0 && |inactive| == 0;
      var d := disposition[t];
      perObject := perObject
        + [ObjectActivation(t, activated && ok, ok, if d.Activated? && !ok then NotActivated else d, messages, inactive)];
    }
  }

  /** A report against an object whose chunk came back clean still takes its activation back. */
  function Blamed(d: Disposition, blameless: bool): Disposition {
    if d.Activated? && !blameless then NotActivated else d
  }

  function DispositionsOf(perObject: seq<ObjectActivation>): (r: seq<Disposition>)
    ensures |r| == |perObject| && forall i :: 0 <= i < |r| ==> r[i] == perObject[i].disposition
  {
    seq(|perObject|, i requires 0 <= i < |perObject| => perObject[i].disposition)
  }

  /** Every object's disposition is what its own chunk and all the blame established. */
  ghost predicate Settled(b: Batch, chunks: seq<seq<Target>>, replies: seq<Reply>, dispositions: seq<Disposition>)
    requires |replies| == |chunks|
  {
    && |dispositions| == |b.targets|
    && forall i, j :: 0 <= i < |b.targets| && 0 <= j < |chunks| && b.targets[i] in chunks[j] ==>
         dispositions[i] == DispositionIn(b, replies, AnsweredCount(replies), j, b.targets[i])
  }

  lemma PresentedIsSettled(b: Batch, chunks: seq<seq<Target>>, replies: seq<Reply>, disposition: map<Target, Disposition>,
                           dispositions: seq<Disposition>)
    requires |replies| == |chunks| && |dispositions| == |b.targets|
    requires var n := AnsweredCount(replies); Disposed(chunks, replies, n, n < |chunks|, disposition)
    requires forall t :: t in b.targets ==> t in disposition
    requires var n := AnsweredCount(replies);
             forall i :: 0 <= i < |b.targets| ==>
               dispositions[i] == Blamed(disposition[b.targets[i]], Blameless(b, replies[..n], b.targets[i]))
    ensures Settled(b, chunks, replies, dispositions)
  {
    hide Blameless, Clean, AnsweredCount;
    var n := AnsweredCount(replies);
    forall i, j | 0 <= i < |b.targets| && 0 <= j < |chunks| && b.targets[i] in chunks[j]
      ensures dispositions[i] == DispositionIn(b, replies, n, j, b.targets[i])
    {
      assert disposition[b.targets[i]] == OwnChunkSays(replies, n, n < |chunks|, j);
    }
  }

  /** The chunks of distinct targets are separate and hold exactly the targets. */
  lemma {:induction false} ChunksAreSeparate(chunks: seq<seq<Target>>, targets: seq<Target>)
    requires Flatten(chunks) == targets && Distinct(targets)
    ensures Separate(chunks)
    ensures forall t :: t in targets <==> exists j :: 0 <= j < |chunks| && t in chunks[j]
    decreases |chunks|
  {
    if chunks != [] {
      var head, tail := chunks[0], chunks[1..];
      assert targets == head + Flatten(tail);
      assert Distinct(Flatten(tail)) by {
        assert forall i :: 0 <= i < |Flatten(tail)| ==> Flatten(tail)[i] == targets[|head| + i];
      }
      ChunksAreSeparate(tail, Flatten(tail));
      HeadIsApart(head, Flatten(tail));
      hide Distinct, Flatten;
      assert forall j :: 0 < j < |chunks| ==> chunks[j] == tail[j - 1];
      forall t ensures t in targets <==> exists j :: 0 <= j < |chunks| && t in chunks[j] {
        if t in Flatten(tail) {
          var j :| 0 <= j < |tail| && t in tail[j];
          assert t in chunks[j + 1];
        }
        if t in head {
          assert t in chunks[0];
        }
      }
      forall i, j, t | 0 <= i < j < |chunks| && t in chunks[i] ensures t !in chunks[j] {
        assert t in tail[j - 1] ==> t in Flatten(tail);
        assert i > 0 ==> chunks[i] == tail[i - 1];
      }
    }
  }

  lemma HeadIsApart(head: seq<Target>, rest: seq<Target>)
    requires Distinct(head + rest)
    ensures forall t :: t in head ==> t !in rest
  {
    forall i, j | 0 <= i < |head| && 0 <= j < |rest| ensures head[i] != rest[j] {
      assert (head + rest)[i] != (head + rest)[|head| + j];
    }
  }

  lemma NoDuplicatesAreDistinct(casing: Case, targets: seq<Target>)
    requires NoDuplicates(casing, targets)
    ensures Distinct(targets)
  {
    hide IdentityOf;
    forall i, j | 0 <= i < j < |targets| ensures targets[i] != targets[j] {
      assert IdentityOf(casing, targets[i]) != IdentityOf(casing, targets[j]);
    }
  }

  /** What an answered batch must report. */
  ghost predicate Describes(b: Batch, replies: seq<Reply>, o: Outcome) {
    && o.messages == MessagesOf(replies) && o.inactive == InactiveOf(replies) && o.preaudit == PreauditOf(replies)
    && o.unattributed == Owned(b, o.messages, None) && o.unattributedInactive == Owned(b, o.inactive, None)
    && (o.activated <==> AllClean(replies)) && (o.ok <==> Errors(o.messages) == 0 && o.inactive == [])
    && |o.perObject| == |b.targets|
    && forall i :: 0 <= i < |b.targets| ==> Tells(b, replies, o.activated, o.perObject[i], b.targets[i])
  }

  /** Answered in full or not, every object's disposition is reported, and a stranded enqueue is released. */
  ghost predicate Concludes(b: Batch, chunks: seq<seq<Target>>, replies: seq<Reply>, result: Result)
    requires |replies| == |chunks|
  {
    var n := AnsweredCount(replies);
    match result
    case Done(o, released) =>
      && n == |chunks| && Describes(b, replies, o) && Settled(b, chunks, replies, DispositionsOf(o.perObject))
      && (released <==> PreauditOf(replies[..n]) != [] && !AllClean(replies))
    case Failed(dispositions, released) =>
      && n < |chunks| && Settled(b, chunks, replies, dispositions)
      && (released <==> PreauditOf(replies[..n]) != [] && !AllClean(replies))
    case _ => false
  }

  method ActivateChunks(b: Batch, post: seq<Target> -> Reply, chunks: seq<seq<Target>>) returns (result: Result)
    requires Separate(chunks) && forall t :: t in b.targets <==> exists j :: 0 <= j < |chunks| && t in chunks[j]
    ensures Concludes(b, chunks, RepliesTo(post, chunks), result)
  {
    hide Settled, Disposed, Separate, Sorted, AllClean, AnyFailed, Clean, Tells;
    hide Owned, MessagesOf, InactiveOf, PreauditOf, Blameless, Errors;
    var x, disposition, n := PostChunks(b, post, chunks);
    ghost var replies := RepliesTo(post, chunks);
    var errors, _ := Tally(x.messages);
    var activated := n == |chunks| && !x.anyFailed && errors == 0 && |x.inactive| == 0;
    BatchVerdict(replies, n);
    var released := |x.preaudit| > 0 && !activated;
    AllDisposed(b, chunks, replies, n, disposition);
    var perObject := Present(b, replies[..n], x, disposition, activated);
    PresentedIsSettled(b, chunks, replies, disposition, DispositionsOf(perObject));
    if n < |chunks| {
      return Failed(DispositionsOf(perObject), released);
    }
    assert replies[..n] == replies;
    NobodysReports(b, x.messages, x.messageBuckets, x.unattributed);
    NobodysReports(b, x.inactive, x.inactiveBuckets, x.unattributedInactive);
    result := Done(Outcome(activated, errors == 0 && |x.inactive| == 0, x.messages, x.inactive, x.preaudit, perObject,
                           x.unattributed, x.unattributedInactive), released);
  }

  method ActivateObjects(casing: Case, split: Split, targets: seq<Target>, post: seq<Target> -> Reply) returns (result: Result)
    ensures result.Empty? <==> targets == []
    ensures result.TooMany? <==> |targets| > MAX_ACTIVATION_BATCH
    ensures result.Duplicate? <==> 0 < |targets| <= MAX_ACTIVATION_BATCH && !NoDuplicates(casing, targets)
    ensures result.Failed? || result.Done? ==>
      var chunks := Chunks(split, targets); Concludes(Batch(casing, targets), chunks, RepliesTo(post, chunks), result)
  {
    hide Concludes, Chunks, NoDuplicates, Distinct, Separate, Flatten;
    if |targets| == 0 {
      return Empty;
    }
    if |targets| > MAX_ACTIVATION_BATCH {
      return TooMany;
    }
    var duplicate := FindDuplicate(casing, targets);
    if duplicate.Some? {
      return Duplicate(duplicate.value);
    }
    var chunks := ChunkActivationTargets(split, targets);
    NoDuplicatesAreDistinct(casing, targets);
    ChunksFlatten(split, targets);
    ChunksAreSeparate(chunks, targets);
    result := ActivateChunks(Batch(casing, targets), post, chunks);
    ConcludesOneWay(Batch(casing, targets), chunks, RepliesTo(post, chunks), result);
  }

  lemma ConcludesOneWay(b: Batch, chunks: seq<seq<Target>>, replies: seq<Reply>, result: Result)
    requires |replies| == |chunks| && Concludes(b, chunks, replies, result)
    ensures result.Done? || result.Failed?
  {
  }

  lemma NobodysReports(b: Batch, reports: seq<Report>, buckets: Buckets, rest: seq<Report>)
    requires Sorted(b, reports, buckets, rest)
    ensures rest == Owned(b, reports, None)
  {
  }

  lemma AllDisposed(b: Batch, chunks: seq<seq<Target>>, replies: seq<Reply>, n: nat, disposition: map<Target, Disposition>)
    requires n <= |replies| == |chunks| && Disposed(chunks, replies, n, n < |chunks|, disposition)
    requires forall t :: t in b.targets <==> exists j :: 0 <= j < |chunks| && t in chunks[j]
    ensures forall t :: t in b.targets ==> t in disposition
  {
  }

  lemma BatchVerdict(replies: seq<Reply>, n: nat)
    requires n == AnsweredCount(replies)
    ensures AllClean(replies) <==>
              n == |replies| && !AnyFailed(replies[..n]) && Errors(MessagesOf(replies[..n])) == 0 && InactiveOf(replies[..n]) == []
  {
    CleanByTotals(replies[..n]);
    if n < |replies| {
      assert !Clean(replies[n]);
    } else {
      assert replies[..n] == replies;
    }
  }

  // ----- what a caller may conclude ------------------------------------------------------------------------------

  /** A batch that activated has activated every object of it. */
  lemma ActivatedBatchActivatesAll(b: Batch, replies: seq<Reply>, t: Target, j: nat)
    requires AllClean(replies) && j < |replies|
    ensures Blameless(b, replies, t) && DispositionIn(b, replies, |replies|, j, t) == Activated
  {
    CleanByTotals(replies);
    ErrorsIff(MessagesOf(replies));
    ErrorsIff(Owned(b, MessagesOf(replies), Some(t)));
    assert Owned(b, [], Some(t)) == [];
    assert replies[..|replies|] == replies;
    hide Errors, MessagesOf, InactiveOf, Owned;
    assert forall r :: r in Owned(b, MessagesOf(replies), Some(t)) ==> r in MessagesOf(replies);
  }

  /** Errors tied to no object keep the batch from activating, but are held against none. */
  lemma UnattributedErrorsStillFail(b: Batch, replies: seq<Reply>)
    requires Errors(Owned(b, MessagesOf(replies), None)) > 0 && forall j :: 0 <= j < |replies| ==> replies[j].Answered?
    ensures !AllClean(replies)
  {
    CleanByTotals(replies);
    ErrorsIff(MessagesOf(replies));
    ErrorsIff(Owned(b, MessagesOf(replies), None));
  }
}
