/** Which object a message of an activation reply is about, after src/adt/activate.ts. */
module Attribution {
  import opened Options
  import opened Sequences
  import opened Text
  import opened ActivationTargets

  /** The two signals a message carries; an absent one is the empty text. */
  datatype Signals = Signals(uri: string, objDescr: string)

  /** Case mappings of the platform. */
  datatype Case = Case(lower: string -> string, upper: string -> string)

  // ----- addresses --------------------------------------------------------------------------------------

  /** s.split(c)[0]. */
  function UpTo(s: string, c: char): string {
    if s == "" || s[0] == c then "" else [s[0]] + UpTo(s[1..], c)
  }

  function StripSlashes(s: string): string {
    if s != "" && s[|s| - 1] == '/' then StripSlashes(s[..|s| - 1]) else s
  }

  function NormaliseAdtUri(casing: Case, uri: string): string {
    if uri == "" then "" else casing.lower(StripSlashes(UpTo(UpTo(uri, '#'), '?')))
  }

  /** The object itself or something inside it: a match that ends at a path segment. */
  predicate UriAddresses(href: string, target: string) {
    href != "" && target != "" && (href == target || target + "/" <= href)
  }

  /** Address k itself, or k and a slash and whatever lies under it. */
  ghost predicate Under(href: string, k: string) {
    k != "" && (href == k || exists rest :: href == k + "/" + rest)
  }

  /** `zfoo` addresses itself and all that lies under it, never a sibling whose name goes on. */
  lemma AddressesWholeSegments(href: string, target: string)
    ensures UriAddresses(href, target) <==> Under(href, target)
  {
    if UriAddresses(href, target) && href != target {
      assert href == target + "/" + href[|target| + 1..];
    }
  }

  lemma SiblingsDiffer(k: string, c: char, rest: string)
    requires k != ""
    ensures UriAddresses(k + [c] + rest, k) <==> c == '/'
  {
    var href := k + [c] + rest;
    assert href[|k|] == c;
    if c == '/' {
      assert href[..|k| + 1] == k + "/";
    }
  }

  lemma {:induction false} UpToStops(s: string, c: char, rest: string)
    requires c !in s
    ensures UpTo(s + [c] + rest, c) == s && UpTo(s, c) == s
  {
    if s != "" {
      assert s[0] in s;
      UpToStops(s[1..], c, rest);
      assert (s + [c] + rest)[1..] == s[1..] + [c] + rest;
    }
  }

  /** Fragment, query and trailing slashes are no part of an address. */
  lemma OnlyThePathCounts(casing: Case, path: string, query: string, fragment: string)
    requires path != "" && '#' !in path && '?' !in path && '#' !in query
    ensures NormaliseAdtUri(casing, path + "?" + query + "#" + fragment) == NormaliseAdtUri(casing, path)
    ensures NormaliseAdtUri(casing, path + "/") == NormaliseAdtUri(casing, path)
    ensures path[|path| - 1] != '/' ==> NormaliseAdtUri(casing, path) == casing.lower(path)
  {
    var full := path + "?" + query;
    UpToStops(full, '#', fragment);
    UpToStops(path, '?', query);
    UpToStops(path, '#', "");
    UpToStops(path, '?', "");
    assert path + "?" + query == path + ['?'] + query;
    assert full + "#" + fragment == full + ['#'] + fragment;
    UpToStops(path + "/", '#', "");
    UpToStops(path + "/", '?', "");
    assert (path + "/")[..|path|] == path;
  }

  lemma {:induction false} StripLeaves(s: string)
    ensures StripSlashes(s) <= s && (StripSlashes(s) == "" || StripSlashes(s)[|StripSlashes(s)| - 1] != '/')
    ensures forall i :: |StripSlashes(s)| <= i < |s| ==> s[i] == '/'
  {
    if s != "" && s[|s| - 1] == '/' {
      StripLeaves(s[..|s| - 1]);
    }
  }

  /** What lies under a path still lies under it when both lose their trailing slashes. */
  lemma StripUnder(path: string, inner: string)
    requires StripSlashes(path) != ""
    ensures Under(StripSlashes(path + "/" + inner), StripSlashes(path))
  {
    var full := path + "/" + inner;
    var k, s := StripSlashes(path), StripSlashes(full);
    StripLeaves(path);
    StripLeaves(full);
    assert full[..|path|] == path;
    assert full[|k| - 1] == k[|k| - 1] != '/';
    assert |s| >= |k|;
    assert s[..|k|] == full[..|k|] == path[..|k|] == k;
    if |s| > |k| {
      assert full[|k|] == '/' by {
        if |k| < |path| {
          assert path[|k|] == '/';
        }
      }
      assert s == k + "/" + s[|k| + 1..];
    }
  }

  /** Lower case goes segment by segment and leaves nothing empty. */
  ghost predicate Segmentwise(casing: Case) {
    && (forall a, b {:trigger casing.lower(a + "/" + b)} :: casing.lower(a + "/" + b) == casing.lower(a) + "/" + casing.lower(b))
    && (forall a :: a != "" ==> casing.lower(a) != "")
  }

  /** From raw addresses: a message on something inside a target, at some position, lies under that target. */
  lemma InnerUriIsUnder(casing: Case, uri: string, inner: string, fragment: string)
    requires Segmentwise(casing) && '#' !in uri && '?' !in uri && '#' !in inner && '?' !in inner
    requires exists i :: 0 <= i < |uri| && uri[i] != '/'
    ensures Under(NormaliseAdtUri(casing, uri + "/" + inner + "#" + fragment), NormaliseAdtUri(casing, uri))
  {
    var full := uri + "/" + inner;
    UpToStops(full, '#', fragment);
    UpToStops(full, '?', "");
    UpToStops(uri, '#', "");
    UpToStops(uri, '?', "");
    assert full + "#" + fragment == full + ['#'] + fragment;
    StripLeaves(uri);
    StripUnder(uri, inner);
    var k, s := StripSlashes(uri), StripSlashes(full);
    hide StripSlashes, UpTo;
    if s != k {
      var rest :| s == k + "/" + rest;
      assert casing.lower(s) == casing.lower(k) + "/" + casing.lower(rest);
    }
  }

  // ----- prose labels -------------------------------------------------------------------------------------

  predicate IsNameChar(c: char) {
    'A' <= c <= 'Z' || '0' <= c <= '9' || c == '_'
  }

  /** name stands at position i of descr as a whole word. */
  predicate StandsAt(descr: string, name: string, i: nat) {
    && i + |name| <= |descr| && descr[i..i + |name|] == name
    && (i == 0 || !IsNameChar(descr[i - 1]))
    && (i + |name| == |descr| || !IsNameChar(descr[i + |name|]))
  }

  predicate Mentions(descr: string, name: string) {
    name != "" && exists i :: 0 <= i <= |descr| && StandsAt(descr, name, i)
  }

  /** Anything but an upper-case letter, a digit or an underscore. */
  predicate EndsWord(c: char) {
    c < '0' || '9' < c < 'A' || 'Z' < c < '_' || '_' < c
  }

  /** name stands in descr with no word character on either side. */
  ghost predicate WholeWord(descr: string, name: string, before: string, after: string) {
    && descr == before + name + after
    && (before == "" || EndsWord(before[|before| - 1])) && (after == "" || EndsWord(after[0]))
  }

  lemma StandsWhole(descr: string, name: string, i: nat)
    requires StandsAt(descr, name, i)
    ensures WholeWord(descr, name, descr[..i], descr[i + |name|..])
  {
    assert descr == descr[..i] + name + descr[i + |name|..];
  }

  lemma WholeStands(descr: string, name: string, before: string, after: string)
    requires WholeWord(descr, name, before, after)
    ensures StandsAt(descr, name, |before|)
  {
    assert descr[|before|..|before| + |name|] == name;
    assert before != "" ==> descr[|before| - 1] == before[|before| - 1];
    assert after != "" ==> descr[|before| + |name|] == after[0];
  }

  /** A label mentions a name exactly if the name is a whole word of it: `ZFOO` is not in `ZFOO_ID`. */
  lemma MentionsIff(descr: string, name: string)
    ensures Mentions(descr, name) <==> name != "" && exists before, after :: WholeWord(descr, name, before, after)
  {
    hide WholeWord, StandsAt;
    if Mentions(descr, name) {
      var i :| 0 <= i <= |descr| && StandsAt(descr, name, i);
      StandsInside(descr, name, i);
      StandsWhole(descr, name, i);
    }
    forall before, after | WholeWord(descr, name, before, after)
      ensures 0 <= |before| <= |descr| && StandsAt(descr, name, |before|)
    {
      WholeStands(descr, name, before, after);
      StandsInside(descr, name, |before|);
    }
  }

  lemma StandsInside(descr: string, name: string, i: nat)
    requires StandsAt(descr, name, i)
    ensures i + |name| <= |descr|
  {
  }

  // ----- the owner of a message -----------------------------------------------------------------------------

  function KeyOf(casing: Case, t: Target): string {
    NormaliseAdtUri(casing, t.uri)
  }

  predicate Addressed(casing: Case, href: string, t: Target) {
    UriAddresses(href, KeyOf(casing, t))
  }

  predicate Mentioned(casing: Case, descr: string, t: Target) {
    Mentions(descr, casing.upper(Trim(t.name)))
  }

  /** The longest addressed target so far, the earliest of equals. */
  function BestByUri(casing: Case, href: string, targets: seq<Target>): Option<Target> {
    if targets == [] then None
    else
      var best, t := BestByUri(casing, href, targets[..|targets| - 1]), targets[|targets| - 1];
      if Addressed(casing, href, t) && (best.None? || |KeyOf(casing, t)| > |KeyOf(casing, best.value)|) then Some(t) else best
  }

  function MentionedOnes(casing: Case, descr: string, targets: seq<Target>): seq<Target> {
    if targets == [] then []
    else
      MentionedOnes(casing, descr, targets[..|targets| - 1])
      + if Mentioned(casing, descr, targets[|targets| - 1]) then [targets[|targets| - 1]] else []
  }

  function OwnerOf(casing: Case, m: Signals, targets: seq<Target>): Option<Target> {
    var href, descr := NormaliseAdtUri(casing, m.uri), casing.upper(m.objDescr);
    var best := BestByUri(casing, href, targets);
    var hits := MentionedOnes(casing, descr, targets);
    if href != "" && best.Some? then best
    else if descr != "" && |hits| == 1 then Some(hits[0])
    else None
  }

  method AttributeToTarget(casing: Case, m: Signals, targets: seq<Target>) returns (owner: Option<Target>)
    ensures owner == OwnerOf(casing, m, targets)
  {
    var href := NormaliseAdtUri(casing, m.uri);
    if href != "" {
      var best: Option<Target>, bestLen := None, -1;
      for i := 0 to |targets|
        invariant best == BestByUri(casing, href, targets[..i])
        invariant bestLen == if best.Some? then |KeyOf(casing, best.value)| else -1
      {
        hide NormaliseAdtUri, UriAddresses;
        assert targets[..i + 1][..i] == targets[..i];
        var key := NormaliseAdtUri(casing, targets[i].uri);
        if UriAddresses(href, key) && |key| > bestLen {
          best, bestLen := Some(targets[i]), |key|;
        }
      }
      assert targets[..|targets|] == targets;
      if best.Some? {
        return best;
      }
    }
    var descr := casing.upper(m.objDescr);
    if descr != "" {
      var hits: seq<Target> := [];
      for i := 0 to |targets|
        invariant hits == MentionedOnes(casing, descr, targets[..i])
      {
        hide Mentions, Trim;
        assert targets[..i + 1][..i] == targets[..i];
        if Mentions(descr, casing.upper(Trim(targets[i].name))) {
          hits := hits + [targets[i]];
        }
      }
      assert targets[..|targets|] == targets;
      if |hits| == 1 {
        return Some(hits[0]);
      }
    }
    owner := None;
  }

  // ----- the owner is a matter of the set, not of its order -----------------------------------------------------

  /** assertNoDuplicates: by address, or by name where there is none. */
  function IdentityOf(casing: Case, t: Target): string {
    if KeyOf(casing, t) != "" then KeyOf(casing, t) else casing.upper(Trim(t.name))
  }

  /** Two targets are one object if they have one address, or if neither has any and their names agree. */
  lemma SameIdentityIff(casing: Case, t: Target, u: Target)
    ensures var k, l := NormaliseAdtUri(casing, t.uri), NormaliseAdtUri(casing, u.uri);
            && (k != "" && l != "" ==> (IdentityOf(casing, t) == IdentityOf(casing, u) <==> k == l))
            && (k == "" && l == "" ==> (IdentityOf(casing, t) == IdentityOf(casing, u) <==> casing.upper(Trim(t.name)) == casing.upper(Trim(u.name))))
            && (k != "" && l == "" ==> (IdentityOf(casing, t) == IdentityOf(casing, u) <==> k == casing.upper(Trim(u.name))))
  {
    hide NormaliseAdtUri, Trim;
  }

  ghost predicate NoDuplicates(casing: Case, targets: seq<Target>) {
    forall i, j :: 0 <= i < j < |targets| ==> IdentityOf(casing, targets[i]) != IdentityOf(casing, targets[j])
  }

  /** The position of the first target that repeats an earlier one, if any. */
  method FindDuplicate(casing: Case, targets: seq<Target>) returns (at: Option<nat>)
    ensures at.None? <==> NoDuplicates(casing, targets)
    ensures at.Some? ==> at.value < |targets| && NoDuplicates(casing, targets[..at.value])
    ensures at.Some? ==> exists i :: 0 <= i < at.value && IdentityOf(casing, targets[i]) == IdentityOf(casing, targets[at.value])
  {
    var seen: set<string> := {};
    for i := 0 to |targets|
      invariant NoDuplicates(casing, targets[..i])
      invariant forall k :: k in seen <==> exists j :: 0 <= j < i && IdentityOf(casing, targets[j]) == k
    {
      hide IdentityOf;
      var key := IdentityOf(casing, targets[i]);
      if key in seen {
        return Some(i);
      }
      ghost var was := seen;
      seen := seen + {key};
      forall k ensures k in seen <==> exists j :: 0 <= j < i + 1 && IdentityOf(casing, targets[j]) == k {
        assert IdentityOf(casing, targets[i]) == key;
        if k in was {
          var j :| 0 <= j < i && IdentityOf(casing, targets[j]) == k;
          assert j < i + 1;
        }
      }
    }
    at := None;
  }

  /** best is among the addressed targets, and none of them is longer. */
  ghost predicate IsLongest(casing: Case, href: string, targets: seq<Target>, best: Target) {
    && best in targets && Addressed(casing, href, best)
    && forall i :: 0 <= i < |targets| && Addressed(casing, href, targets[i]) ==> |KeyOf(casing, targets[i])| <= |KeyOf(casing, best)|
  }

  lemma {:induction false} BestIsLongest(casing: Case, href: string, targets: seq<Target>)
    ensures var best := BestByUri(casing, href, targets);
            && (best.None? <==> forall i :: 0 <= i < |targets| ==> !Addressed(casing, href, targets[i]))
            && (best.Some? ==> IsLongest(casing, href, targets, best.value))
  {
    if targets != [] {
      hide Addressed, KeyOf;
      var init, t := targets[..|targets| - 1], targets[|targets| - 1];
      BestIsLongest(casing, href, init);
      assert forall i :: 0 <= i < |init| ==> init[i] == targets[i];
      assert targets == init + [t];
    }
  }

  /** Two addressed targets of one length are the same address. */
  lemma EqualLengthsMeet(href: string, a: string, b: string)
    requires UriAddresses(href, a) && UriAddresses(href, b) && |a| == |b|
    ensures a == b
  {
    assert a == href[..|a|] && b == href[..|b|];
  }

  /** The owner by address: the one longest target that is a path prefix of the message's address. */
  lemma OwnerByAddress(casing: Case, href: string, targets: seq<Target>, t: Target)
    requires NoDuplicates(casing, targets)
    ensures BestByUri(casing, href, targets) == Some(t) <==>
              && t in targets && Under(href, KeyOf(casing, t))
              && forall u :: u in targets && u != t && Under(href, KeyOf(casing, u)) ==> |KeyOf(casing, u)| < |KeyOf(casing, t)|
  {
    forall u: Target ensures Addressed(casing, href, u) <==> Under(href, KeyOf(casing, u)) {
      AddressesWholeSegments(href, KeyOf(casing, u));
    }
    hide Under;
    BestIsLongest(casing, href, targets);
    var best := BestByUri(casing, href, targets);
    hide BestByUri, NormaliseAdtUri;
    if best.Some? {
      forall u | u in targets && u != best.value && Addressed(casing, href, u)
        ensures |KeyOf(casing, u)| < |KeyOf(casing, best.value)|
      {
        if |KeyOf(casing, u)| == |KeyOf(casing, best.value)| {
          EqualLengthsMeet(href, KeyOf(casing, u), KeyOf(casing, best.value));
          SameIdentity(casing, targets, u, best.value);
        }
      }
    }
  }

  /**
    A message on something inside a target, fragment and all, belongs to that target, unless another
    one lies at least as close around it.
   */
  lemma InnerMessageIsOwned(casing: Case, m: Signals, targets: seq<Target>, t: Target, inner: string, position: string)
    requires Segmentwise(casing) && t in targets && exists i :: 0 <= i < |t.uri| && t.uri[i] != '/'
    requires '#' !in t.uri && '?' !in t.uri && '#' !in inner && '?' !in inner
    requires m.uri == t.uri + "/" + inner + "#" + ("start=" + position)
    requires forall u :: u in targets && u != t && Under(NormaliseAdtUri(casing, m.uri), KeyOf(casing, u)) ==> |KeyOf(casing, u)| < |KeyOf(casing, t)|
    ensures OwnerOf(casing, m, targets) == Some(t)
  {
    var href := NormaliseAdtUri(casing, m.uri);
    InnerUriIsUnder(casing, t.uri, inner, "start=" + position);
    forall u: Target ensures Addressed(casing, href, u) <==> Under(href, KeyOf(casing, u)) {
      AddressesWholeSegments(href, KeyOf(casing, u));
    }
    assert href != "";
    BestIsLongest(casing, href, targets);
    hide BestByUri, NormaliseAdtUri, Under, Segmentwise, Addressed;
    var best := BestByUri(casing, href, targets);
    var i :| 0 <= i < |targets| && targets[i] == t;
    assert Addressed(casing, href, targets[i]);
  }

  ghost predicate OnlyMentioned(casing: Case, descr: string, targets: seq<Target>, i: int) {
    0 <= i < |targets| && forall j :: 0 <= j < |targets| ==> (Mentions(descr, casing.upper(Trim(targets[j].name))) <==> j == i)
  }

  /** Without an address, the owner is the one target the label mentions; with none or several there is no owner. */
  lemma OwnerByLabel(casing: Case, m: Signals, targets: seq<Target>)
    requires forall u :: u in targets ==> !Under(NormaliseAdtUri(casing, m.uri), KeyOf(casing, u))
    ensures var descr := casing.upper(m.objDescr);
            && (forall i :: descr != "" && OnlyMentioned(casing, descr, targets, i) ==> OwnerOf(casing, m, targets) == Some(targets[i]))
            && (OwnerOf(casing, m, targets).Some? ==> descr != "" && exists i :: OnlyMentioned(casing, descr, targets, i))
  {
    var href, descr := NormaliseAdtUri(casing, m.uri), casing.upper(m.objDescr);
    forall u | u in targets ensures !Addressed(casing, href, u) {
      AddressesWholeSegments(href, KeyOf(casing, u));
    }
    BestIsLongest(casing, href, targets);
    OneMentioned(casing, descr, targets);
    hide BestByUri, NormaliseAdtUri, Mentioned, Mentions, MentionedOnes, OnlyMentioned;
  }

  lemma {:induction false} NoneMentioned(casing: Case, descr: string, targets: seq<Target>)
    ensures MentionedOnes(casing, descr, targets) == [] <==> forall j :: 0 <= j < |targets| ==> !Mentioned(casing, descr, targets[j])
  {
    hide Mentioned;
    if targets != [] {
      NoneMentioned(casing, descr, targets[..|targets| - 1]);
      assert forall j :: 0 <= j < |targets| - 1 ==> targets[j] == targets[..|targets| - 1][j];
    }
  }

  lemma {:induction false} OneMentioned(casing: Case, descr: string, targets: seq<Target>)
    ensures var hits := MentionedOnes(casing, descr, targets);
            && (forall i :: OnlyMentioned(casing, descr, targets, i) ==> hits == [targets[i]])
            && (|hits| == 1 ==> exists i :: OnlyMentioned(casing, descr, targets, i))
  {
    hide Mentions, Trim;
    if targets != [] {
      var init, last := targets[..|targets| - 1], |targets| - 1;
      OneMentioned(casing, descr, init);
      NoneMentioned(casing, descr, init);
      assert forall j :: 0 <= j < last ==> init[j] == targets[j];
      if Mentioned(casing, descr, targets[last]) {
        if MentionedOnes(casing, descr, init) == [] {
          assert OnlyMentioned(casing, descr, targets, last);
        }
        forall i | OnlyMentioned(casing, descr, targets, i) ensures MentionedOnes(casing, descr, targets) == [targets[i]] {
          assert i == last;
          assert [] + [targets[last]] == [targets[last]];
        }
      } else {
        forall i ensures OnlyMentioned(casing, descr, targets, i) <==> OnlyMentioned(casing, descr, init, i) {
        }
      }
    }
  }

  lemma SameIdentity(casing: Case, targets: seq<Target>, t: Target, u: Target)
    requires NoDuplicates(casing, targets) && t in targets && u in targets && IdentityOf(casing, t) == IdentityOf(casing, u)
    ensures t == u
  {
  }

  lemma {:induction false} MentionedIff(casing: Case, descr: string, targets: seq<Target>)
    ensures forall t :: t in MentionedOnes(casing, descr, targets) <==> t in targets && Mentioned(casing, descr, t)
    ensures multiset(MentionedOnes(casing, descr, targets)) <= multiset(targets)
  {
    if targets != [] {
      hide Mentioned;
      var init, t := targets[..|targets| - 1], targets[|targets| - 1];
      MentionedIff(casing, descr, init);
      assert targets == init + [t];
    }
  }

  lemma MentionedSnoc(casing: Case, descr: string, init: seq<Target>, last: Target, t: Target)
    requires Mentioned(casing, descr, t)
    ensures Times(MentionedOnes(casing, descr, init + [last]), t)
         == Times(MentionedOnes(casing, descr, init), t) + if last == t then 1 else 0
  {
    var was := MentionedOnes(casing, descr, init);
    assert (init + [last])[..|init|] == init;
    hide Mentioned;
    TimesSnoc(was, last, t);
    hide Times;
    assert was + [] == was;
  }

  lemma {:induction false} MentionedCount(casing: Case, descr: string, targets: seq<Target>, t: Target)
    requires Mentioned(casing, descr, t)
    ensures Times(MentionedOnes(casing, descr, targets), t) == Times(targets, t)
  {
    if targets != [] {
      var init, last := targets[..|targets| - 1], targets[|targets| - 1];
      assert targets == init + [last];
      hide Mentioned, MentionedOnes, Times;
      MentionedCount(casing, descr, init, t);
      MentionedSnoc(casing, descr, init, last, t);
      TimesSnoc(init, last, t);
    }
  }

  /** The mentioned targets of a reordered list are the mentioned targets, reordered. */
  lemma MentionedReordered(casing: Case, descr: string, a: seq<Target>, b: seq<Target>)
    requires multiset(a) == multiset(b)
    ensures multiset(MentionedOnes(casing, descr, a)) == multiset(MentionedOnes(casing, descr, b))
  {
    MentionedIff(casing, descr, a);
    MentionedIff(casing, descr, b);
    var x, y := MentionedOnes(casing, descr, a), MentionedOnes(casing, descr, b);
    hide MentionedOnes, Mentioned;
    forall t ensures multiset(x)[t] == multiset(y)[t] {
      if Mentioned(casing, descr, t) {
        MentionedCount(casing, descr, a, t);
        MentionedCount(casing, descr, b, t);
      } else {
        assert t !in x && t !in y;
      }
    }
  }

  lemma SameElements(a: seq<Target>, b: seq<Target>)
    requires multiset(a) == multiset(b)
    ensures |a| == |b| && forall t :: t in a <==> t in b
  {
    assert |multiset(a)| == |a| && |multiset(b)| == |b|;
    forall t ensures t in a <==> t in b {
      assert t in a <==> t in multiset(a);
      assert t in b <==> t in multiset(b);
    }
  }

  lemma NoDuplicatesReordered(casing: Case, a: seq<Target>, b: seq<Target>)
    requires multiset(a) == multiset(b) && NoDuplicates(casing, a)
    ensures NoDuplicates(casing, b)
  {
    SameElements(a, b);
    forall i, j | 0 <= i < j < |b| ensures IdentityOf(casing, b[i]) != IdentityOf(casing, b[j]) {
      if IdentityOf(casing, b[i]) == IdentityOf(casing, b[j]) {
        assert b[i] in b && b[j] in b;
        SameIdentity(casing, a, b[i], b[j]);
        TwiceInB(b, i, j);
        OnceInA(casing, a, b[i]);
      }
    }
  }

  lemma TwiceInB(b: seq<Target>, i: nat, j: nat)
    requires i < j < |b| && b[i] == b[j]
    ensures multiset(b)[b[i]] >= 2
  {
    assert b == b[..j] + [b[j]] + b[j + 1..];
    assert b[i] == b[..j][i] && b[i] in b[..j];
  }

  lemma LastTargetIsNew(casing: Case, a: seq<Target>)
    requires NoDuplicates(casing, a) && a != []
    ensures NoDuplicates(casing, a[..|a| - 1]) && a[|a| - 1] !in a[..|a| - 1]
  {
    hide IdentityOf;
    var init := a[..|a| - 1];
    forall i | 0 <= i < |init| ensures init[i] != a[|a| - 1] {
      assert IdentityOf(casing, a[i]) != IdentityOf(casing, a[|a| - 1]);
    }
  }

  lemma {:induction false} OnceInA(casing: Case, a: seq<Target>, t: Target)
    requires NoDuplicates(casing, a)
    ensures multiset(a)[t] <= 1
  {
    if a != [] {
      LastTargetIsNew(casing, a);
      OnceInA(casing, a[..|a| - 1], t);
      hide NoDuplicates;
      assert a == a[..|a| - 1] + [a[|a| - 1]];
    }
  }

  /** Reordering the objects of a batch never moves a message to another owner. */
  lemma OrderDoesNotMatter(casing: Case, m: Signals, a: seq<Target>, b: seq<Target>)
    requires multiset(a) == multiset(b) && NoDuplicates(casing, a)
    ensures OwnerOf(casing, m, a) == OwnerOf(casing, m, b)
  {
    var href, descr := NormaliseAdtUri(casing, m.uri), casing.upper(m.objDescr);
    SameElements(a, b);
    NoDuplicatesReordered(casing, a, b);
    BestSame(casing, href, a, b);
    MentionedReordered(casing, descr, a, b);
    var x, y := MentionedOnes(casing, descr, a), MentionedOnes(casing, descr, b);
    hide MentionedOnes, BestByUri, NoDuplicates;
    SameElements(x, y);
    if |x| == 1 {
      assert x[0] in y && y[0] in x;
    }
  }

  lemma BestSame(casing: Case, href: string, a: seq<Target>, b: seq<Target>)
    requires NoDuplicates(casing, a) && NoDuplicates(casing, b) && forall t :: t in a <==> t in b
    ensures BestByUri(casing, href, a) == BestByUri(casing, href, b)
  {
    var x, y := BestByUri(casing, href, a), BestByUri(casing, href, b);
    hide BestByUri, NoDuplicates, Addressed, KeyOf;
    if x.Some? {
      OwnerByAddress(casing, href, a, x.value);
      OwnerByAddress(casing, href, b, x.value);
    } else if y.Some? {
      OwnerByAddress(casing, href, a, y.value);
      OwnerByAddress(casing, href, b, y.value);
    }
  }
}
