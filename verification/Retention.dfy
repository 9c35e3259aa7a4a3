/** Which entries a prune of src/journal.ts keeps. */
module Retention {
  import opened Options
  import opened JournalLog

  /** Newest first; ids sort by time. */
  ghost predicate NewestFirst(entries: seq<Record>) {
    forall i, j :: 0 <= i < j < |entries| ==> entries[i].id > entries[j].id
  }

  /** An unreadable timestamp is never too old. */
  predicate TooOld(e: Record, cutoff: Option<int>) {
    cutoff.Some? && e.ts.Some? && e.ts.value.parsed.Some? && e.ts.value.parsed.value < cutoff.value
  }

  predicate Protected(e: Record, inFlight: set<Id>) {
    e.id in inFlight
  }

  /** Whether e is kept behind `kept` newer ones. */
  predicate Keeps(e: Record, kept: nat, cutoff: Option<int>, maxEntries: nat, inFlight: set<Id>) {
    Protected(e, inFlight) || (!TooOld(e, cutoff) && (maxEntries == 0 || kept < maxEntries))
  }

  /** The kept ones among entries listed newest first. */
  function Kept(entries: seq<Record>, cutoff: Option<int>, maxEntries: nat, inFlight: set<Id>): (r: seq<Record>) {
    if entries == [] then []
    else
      var before := Kept(entries[..|entries| - 1], cutoff, maxEntries, inFlight);
      var e := entries[|entries| - 1];
      if Keeps(e, |before|, cutoff, maxEntries, inFlight) then before + [e] else before
  }

  function Dropped(entries: seq<Record>, cutoff: Option<int>, maxEntries: nat, inFlight: set<Id>): (r: seq<Record>)
    ensures forall e :: e in r ==> !Protected(e, inFlight)
  {
    if entries == [] then []
    else
      var init, e := entries[..|entries| - 1], entries[|entries| - 1];
      var before := Dropped(init, cutoff, maxEntries, inFlight);
      if Keeps(e, |Kept(init, cutoff, maxEntries, inFlight)|, cutoff, maxEntries, inFlight) then before else before + [e]
  }

  /** No entry is lost or doubled. */
  lemma {:induction false} KeptPlusDropped(entries: seq<Record>, cutoff: Option<int>, maxEntries: nat, inFlight: set<Id>)
    ensures multiset(Kept(entries, cutoff, maxEntries, inFlight)) + multiset(Dropped(entries, cutoff, maxEntries, inFlight))
         == multiset(entries)
  {
    if entries != [] {
      var init, e := entries[..|entries| - 1], entries[|entries| - 1];
      KeptPlusDropped(init, cutoff, maxEntries, inFlight);
      assert entries == init + [e];
    }
  }

  /** Splits newest-first entries into kept and dropped ones. */
  method Retain(ordered: seq<Record>, cutoff: Option<int>, maxEntries: nat, inFlight: set<Id>)
    returns (keep: seq<Record>, drop: seq<Record>)
    ensures keep == Kept(ordered, cutoff, maxEntries, inFlight)
    ensures drop == Dropped(ordered, cutoff, maxEntries, inFlight)
  {
    keep, drop := [], [];
    for i := 0 to |ordered|
      invariant keep == Kept(ordered[..i], cutoff, maxEntries, inFlight)
      invariant drop == Dropped(ordered[..i], cutoff, maxEntries, inFlight)
    {
      var e := ordered[i];
      assert ordered[..i + 1][..i] == ordered[..i];
      var tooMany := maxEntries > 0 && |keep| >= maxEntries;
      if (TooOld(e, cutoff) || tooMany) && e.id !in inFlight {
        drop := drop + [e];
      } else {
        keep := keep + [e];
      }
    }
    assert ordered[..|ordered|] == ordered;
  }

  function InFlightOf(entries: seq<Record>, inFlight: set<Id>): set<Id> {
    set i | 0 <= i < |entries| && entries[i].id in inFlight :: entries[i].id
  }

  /** Kept entries are entries, in the same order. */
  lemma {:induction false} KeptInOrder(entries: seq<Record>, cutoff: Option<int>, maxEntries: nat, inFlight: set<Id>)
    requires NewestFirst(entries)
    ensures var r := Kept(entries, cutoff, maxEntries, inFlight);
            NewestFirst(r) && (forall e :: e in r ==> e in entries)
  {
    if entries != [] {
      var init, e := entries[..|entries| - 1], entries[|entries| - 1];
      KeptInOrder(init, cutoff, maxEntries, inFlight);
      var before := Kept(init, cutoff, maxEntries, inFlight);
      forall i | 0 <= i < |before|
        ensures before[i].id > e.id
      {
        assert before[i] in init;
        var k :| 0 <= k < |init| && init[k] == before[i];
        assert entries[k] == init[k];
      }
    }
  }

  /** A prefix decides on its own entries. */
  lemma {:induction false} KeptPrefix(entries: seq<Record>, n: nat, cutoff: Option<int>, maxEntries: nat, inFlight: set<Id>)
    requires n <= |entries|
    ensures Kept(entries[..n], cutoff, maxEntries, inFlight) <= Kept(entries, cutoff, maxEntries, inFlight)
    decreases |entries|
  {
    if n == |entries| {
      assert entries[..n] == entries;
    } else {
      KeptPrefix(entries[..|entries| - 1], n, cutoff, maxEntries, inFlight);
      assert entries[..|entries| - 1][..n] == entries[..n];
    }
  }

  /** The timestamp parses, and to a time before the cutoff. */
  ghost predicate DatedBefore(e: Record, cutoff: Option<int>) {
    exists t: int, c: int :: cutoff == Some(c) && e.ts.Some? && e.ts.value.parsed == Some(t) && t < c
  }

  lemma TooOldIff(e: Record, cutoff: Option<int>)
    ensures TooOld(e, cutoff) <==> DatedBefore(e, cutoff)
  {
    if TooOld(e, cutoff) {
      assert cutoff == Some(cutoff.value) && e.ts.value.parsed == Some(e.ts.value.parsed.value);
    }
  }

  /** Entry i is kept exactly when the rule says so behind what is kept of its newer ones. */
  lemma {:induction false} KeptIff(entries: seq<Record>, i: nat, cutoff: Option<int>, maxEntries: nat, inFlight: set<Id>)
    requires NewestFirst(entries) && i < |entries|
    ensures entries[i] in Kept(entries, cutoff, maxEntries, inFlight)
            <==> entries[i].id in inFlight
                 || (!DatedBefore(entries[i], cutoff) && (maxEntries == 0 || |Kept(entries[..i], cutoff, maxEntries, inFlight)| < maxEntries))
    decreases |entries|
  {
    var init := entries[..|entries| - 1];
    KeptInOrder(init, cutoff, maxEntries, inFlight);
    TooOldIff(entries[i], cutoff);
    hide DatedBefore, TooOld;
    if i < |init| {
      KeptIff(init, i, cutoff, maxEntries, inFlight);
      assert init[..i] == entries[..i];
    } else {
      assert forall k :: 0 <= k < |init| ==> init[k] == entries[k] && init[k].id > entries[i].id;
    }
  }

  /** For its age an entry goes exactly when it is dated before the cutoff and not in flight. */
  lemma DroppedForAge(entries: seq<Record>, i: nat, cutoff: Option<int>, maxEntries: nat, inFlight: set<Id>)
    requires NewestFirst(entries) && i < |entries|
    ensures DatedBefore(entries[i], cutoff) && entries[i].id !in inFlight ==> entries[i] !in Kept(entries, cutoff, maxEntries, inFlight)
    ensures maxEntries == 0 ==>
              (entries[i] !in Kept(entries, cutoff, maxEntries, inFlight) <==> DatedBefore(entries[i], cutoff) && entries[i].id !in inFlight)
  {
    KeptIff(entries, i, cutoff, maxEntries, inFlight);
  }

  lemma InFlightGrows(init: seq<Record>, e: Record, inFlight: set<Id>)
    requires forall i :: 0 <= i < |init| ==> init[i].id != e.id
    ensures |InFlightOf(init + [e], inFlight)| == |InFlightOf(init, inFlight)| + if e.id in inFlight then 1 else 0
  {
    var all := init + [e];
    var own := if e.id in inFlight then {e.id} else {};
    assert InFlightOf(all, inFlight) == InFlightOf(init, inFlight) + own by {
      assert all[|init|] == e;
      assert forall i :: 0 <= i < |init| ==> all[i] == init[i];
    }
    assert e.id !in InFlightOf(init, inFlight);
  }

  /** At most maxEntries survive beside those in flight. */
  lemma {:induction false} KeptCount(entries: seq<Record>, cutoff: Option<int>, maxEntries: nat, inFlight: set<Id>)
    requires NewestFirst(entries) && maxEntries > 0
    ensures |Kept(entries, cutoff, maxEntries, inFlight)| <= maxEntries + |InFlightOf(entries, inFlight)|
  {
    if entries != [] {
      var init, e := entries[..|entries| - 1], entries[|entries| - 1];
      KeptCount(init, cutoff, maxEntries, inFlight);
      InFlightGrows(init, e, inFlight);
      assert entries == init + [e];
    }
  }

  /** Nothing in flight is ever dropped, and an entry neither old nor in excess never is. */
  lemma NothingInFlightDropped(entries: seq<Record>, i: nat, cutoff: Option<int>, maxEntries: nat, inFlight: set<Id>)
    requires NewestFirst(entries) && i < |entries|
    requires entries[i].id in inFlight || (!DatedBefore(entries[i], cutoff) && (maxEntries == 0 || i < maxEntries))
    ensures entries[i] in Kept(entries, cutoff, maxEntries, inFlight)
  {
    KeptIff(entries, i, cutoff, maxEntries, inFlight);
    KeptNoMore(entries[..i], cutoff, maxEntries, inFlight);
  }

  lemma {:induction false} KeptNoMore(entries: seq<Record>, cutoff: Option<int>, maxEntries: nat, inFlight: set<Id>)
    ensures |Kept(entries, cutoff, maxEntries, inFlight)| <= |entries|
  {
    if entries != [] {
      KeptNoMore(entries[..|entries| - 1], cutoff, maxEntries, inFlight);
    }
  }

  /** Once one entry goes for the count, every older one that is not in flight goes too. */
  lemma DroppedForCountEndsTheList(entries: seq<Record>, i: nat, j: nat, cutoff: Option<int>, maxEntries: nat, inFlight: set<Id>)
    requires NewestFirst(entries) && i < j < |entries|
    requires entries[i] !in Kept(entries, cutoff, maxEntries, inFlight) && !DatedBefore(entries[i], cutoff)
    requires entries[j].id !in inFlight
    ensures entries[j] !in Kept(entries, cutoff, maxEntries, inFlight)
  {
    KeptIff(entries, i, cutoff, maxEntries, inFlight);
    KeptIff(entries, j, cutoff, maxEntries, inFlight);
    KeptPrefix(entries[..j], i, cutoff, maxEntries, inFlight);
    assert entries[..j][..i] == entries[..i];
  }

  // ----- sorting the entries ----------------------------------------------------------------------

  method Newest(ids: set<Id>) returns (m: Id)
    requires ids != {}
    ensures m in ids && forall i :: i in ids ==> i <= m
  {
    m :| m in ids;
    var rest := ids - {m};
    while rest != {}
      invariant rest <= ids && m in ids
      invariant forall i :: i in ids ==> i in rest || i <= m
      decreases |rest|
    {
      var x :| x in rest;
      rest := rest - {x};
      m := if m < x then x else m;
    }
  }

  /** The entries newest first, each once. */
  ghost predicate Sorted(all: map<Id, Record>, ordered: seq<Record>) {
    && NewestFirst(ordered)
    && |ordered| == |all|
    && (forall e :: e in ordered ==> e.id in all && all[e.id] == e)
    && (forall id :: id in all ==> all[id] in ordered)
  }

  method SortNewestFirst(all: map<Id, Record>) returns (ordered: seq<Record>)
    requires forall id :: id in all ==> all[id].id == id
    ensures Sorted(all, ordered)
  {
    ordered := [];
    var rest := all.Keys;
    while rest != {}
      invariant rest <= all.Keys && |ordered| + |rest| == |all|
      invariant NewestFirst(ordered)
      invariant forall e :: e in ordered ==> e.id in all && all[e.id] == e && forall id :: id in rest ==> e.id > id
      invariant forall id :: id in all && id !in rest ==> all[id] in ordered
      decreases |rest|
    {
      var id := Newest(rest);
      ordered := ordered + [all[id]];
      rest := rest - {id};
    }
  }
}
