/** What the activation code of src/adt/activate.ts works on, and its split into capped chunks. */
module ActivationTargets {
  import opened Sequences

  /** An object to activate; an absent type or address is the empty text. */
  datatype Target = Target(name: string, uri: string, kind: string)

  /** How many objects of either class one request may name. */
  datatype Sizes = Sizes(ddic: nat, safe: nat)

  /** The type table: which types fan out on the server. */
  datatype Split = Split(prone: string -> bool, sizes: Sizes) {
    function Cap(t: Target): nat {
      if prone(t.kind) then sizes.ddic else sizes.safe
    }

    predicate Alike(t: Target, u: Target) {
      prone(t.kind) == prone(u.kind)
    }
  }

  /** How far the first chunk reaches: same class, within its cap, but never empty. */
  function FirstLength(s: Split, targets: seq<Target>): (n: nat)
    requires targets != []
    ensures 1 <= n <= |targets|
    ensures forall i :: 0 <= i < n ==> s.Alike(targets[0], targets[i])
    ensures n <= s.Cap(targets[0]) || n == 1
    ensures n < |targets| ==> n >= s.Cap(targets[0]) || !s.Alike(targets[0], targets[n])
  {
    Reach(s, targets, 1)
  }

  function Reach(s: Split, targets: seq<Target>, n: nat): (r: nat)
    requires 1 <= n <= |targets|
    requires forall i :: 0 <= i < n ==> s.Alike(targets[0], targets[i])
    requires n <= s.Cap(targets[0]) || n == 1
    ensures n <= r <= |targets|
    ensures forall i :: 0 <= i < r ==> s.Alike(targets[0], targets[i])
    ensures r <= s.Cap(targets[0]) || r == 1
    ensures r < |targets| ==> r >= s.Cap(targets[0]) || !s.Alike(targets[0], targets[r])
    decreases |targets| - n
  {
    if n < |targets| && n < s.Cap(targets[0]) && s.Alike(targets[0], targets[n]) then Reach(s, targets, n + 1) else n
  }

  /** The chunks, first one first. */
  function Chunks(s: Split, targets: seq<Target>): seq<seq<Target>>
    decreases |targets|
  {
    if targets == [] then []
    else var n := FirstLength(s, targets); [targets[..n]] + Chunks(s, targets[n..])
  }

  lemma ChunksUnfold(s: Split, targets: seq<Target>, n: nat)
    requires targets != [] ==> n == FirstLength(s, targets)
    ensures targets != [] ==> 1 <= n <= |targets| && Chunks(s, targets) == [targets[..n]] + Chunks(s, targets[n..])
    ensures targets == [] ==> Chunks(s, targets) == []
    ensures targets != [] ==> |Chunks(s, targets)| == 1 + |Chunks(s, targets[n..])|
  {
  }

  /** A full or foreign next target ends the running chunk. */
  lemma ChunkEnds(s: Split, current: seq<Target>, rest: seq<Target>)
    requires current != [] && rest != [] && |current| <= FirstLength(s, current + rest)
    requires !s.Alike(current[0], rest[0]) || |current| >= s.Cap(current[0])
    ensures Chunks(s, current + rest) == [current] + Chunks(s, rest)
  {
    var all := current + rest;
    assert all[|current|] == rest[0];
    assert all[..|current|] == current && all[|current|..] == rest;
  }

  lemma ChunkGrows(s: Split, current: seq<Target>, rest: seq<Target>)
    requires current != [] && rest != [] && |current| <= FirstLength(s, current + rest)
    requires s.Alike(current[0], rest[0]) && |current| < s.Cap(current[0])
    ensures |current| + 1 <= FirstLength(s, current + rest)
  {
    assert (current + rest)[|current|] == rest[0];
  }

  lemma LastChunk(s: Split, current: seq<Target>, rest: seq<Target>)
    requires Running(s, current, rest) && rest == []
    ensures Chunks(s, current + rest) == if current == [] then [] else [current]
  {
    assert current + rest == current;
    assert current[..|current|] == current && current[|current|..] == [];
  }

  /** The running chunk may still become the first chunk of what is left. */
  ghost predicate Running(s: Split, current: seq<Target>, rest: seq<Target>) {
    current != [] ==> |current| <= FirstLength(s, current + rest)
  }

  predicate StartsNewChunk(s: Split, current: seq<Target>, t: Target) {
    current == [] || !s.Alike(current[0], t) || |current| >= s.Cap(current[0])
  }

  lemma StartsIff(s: Split, current: seq<Target>, t: Target)
    ensures StartsNewChunk(s, current, t) <==> current == [] || s.prone(current[0].kind) != s.prone(t.kind) || |current| >= s.Cap(current[0])
    ensures s.Cap(t) == if s.prone(t.kind) then s.sizes.ddic else s.sizes.safe
  {
  }

  /** One target further: the running chunk is closed first, or not. */
  lemma ChunkStep(s: Split, current: seq<Target>, t: Target, rest: seq<Target>)
    requires Running(s, current, [t] + rest)
    ensures var now := (if StartsNewChunk(s, current, t) then [] else current) + [t];
            && Running(s, now, rest)
            && Chunks(s, current + ([t] + rest))
               == (if StartsNewChunk(s, current, t) && current != [] then [current] else []) + Chunks(s, now + rest)
  {
    hide Chunks, FirstLength;
    if !StartsNewChunk(s, current, t) {
      ChunkGrows(s, current, [t] + rest);
      Assoc(current, [t], rest);
    } else {
      assert [] + [t] == [t] && [] + ([t] + rest) == [t] + rest;
      if current != [] {
        ChunkEnds(s, current, [t] + rest);
      }
    }
  }

  lemma FirstStep(s: Split, targets: seq<Target>)
    ensures Chunks(s, targets) == [] + Chunks(s, [] + targets[0..]) && Running(s, [], targets[0..])
  {
    assert [] + targets[0..] == targets;
  }

  method ChunkActivationTargets(s: Split, targets: seq<Target>) returns (chunks: seq<seq<Target>>)
    ensures chunks == Chunks(s, targets)
  {
    hide Chunks, Running, StartsNewChunk, s.Cap, s.Alike;
    chunks := [];
    var current: seq<Target> := [];
    var currentProne, currentCap := false, 0;
    FirstStep(s, targets);
    for i := 0 to |targets|
      invariant Chunks(s, targets) == chunks + Chunks(s, current + targets[i..])
      invariant current != [] ==> currentProne == s.prone(current[0].kind) && currentCap == s.Cap(current[0])
      invariant Running(s, current, targets[i..])
    {
      var t := targets[i];
      ghost var was, rest, starts := chunks, targets[i + 1..], StartsNewChunk(s, current, t);
      ghost var closed := if starts && current != [] then [current] else [];
      ghost var now := (if starts then [] else current) + [t];
      assert targets[i..] == [t] + rest;
      ChunkStep(s, current, t, rest);
      Assoc(was, closed, Chunks(s, now + rest));
      assert starts <==> current == [] || currentProne != s.prone(t.kind) || |current| >= currentCap by {
        StartsIff(s, current, t);
      }
      var prone := s.prone(t.kind);
      var cap := if prone then s.sizes.ddic else s.sizes.safe;
      if current == [] || currentProne != prone || |current| >= currentCap {
        if current != [] {
          chunks := chunks + [current];
        }
        current := [];
        currentProne, currentCap := prone, cap;
      }
      current := current + [t];
      assert cap == s.Cap(t) by {
        StartsIff(s, [t], t);
      }
      assert chunks == was + closed && current == now;
    }
    LastChunk(s, current, targets[|targets|..]);
    if current != [] {
      chunks := chunks + [current];
    }
  }

  // ----- what a split must be, and that this one is the shortest ----------------------------------------------

  function Flatten<T>(chunks: seq<seq<T>>): seq<T> {
    if chunks == [] then [] else chunks[0] + Flatten(chunks[1..])
  }

  predicate OneClass(s: Split, chunk: seq<Target>) {
    forall i :: 0 <= i < |chunk| ==> s.Alike(chunk[0], chunk[i])
  }

  predicate WithinCap(s: Split, chunk: seq<Target>) {
    chunk != [] ==> |chunk| <= s.Cap(chunk[0])
  }

  predicate Obeys(s: Split, chunks: seq<seq<Target>>) {
    forall k :: 0 <= k < |chunks| ==> OneClass(s, chunks[k]) && WithinCap(s, chunks[k])
  }

  predicate NoneEmpty<T(==)>(chunks: seq<seq<T>>) {
    forall k :: 0 <= k < |chunks| ==> chunks[k] != []
  }

  lemma FlattenCons<T>(head: seq<T>, rest: seq<seq<T>>)
    ensures Flatten([head] + rest) == head + Flatten(rest)
    ensures head != [] && NoneEmpty(rest) ==> NoneEmpty([head] + rest)
  {
    assert ([head] + rest)[1..] == rest;
  }

  lemma FlattenNothing<T>()
    ensures Flatten<T>([]) == [] && NoneEmpty<T>([])
  {
  }

  /** Order kept, nothing lost. */
  lemma {:induction false} ChunksFlatten(s: Split, targets: seq<Target>)
    ensures Flatten(Chunks(s, targets)) == targets && NoneEmpty(Chunks(s, targets))
    decreases |targets|
  {
    hide FirstLength, Flatten, NoneEmpty, Chunks;
    var n := if targets == [] then 0 else FirstLength(s, targets);
    ChunksUnfold(s, targets, n);
    if targets == [] {
      FlattenNothing<Target>();
    } else {
      var head, rest := targets[..n], targets[n..];
      ChunksFlatten(s, rest);
      FlattenCons(head, Chunks(s, rest));
      assert targets == head + rest;
    }
  }

  /** One class per chunk, and with positive caps never more than its cap. */
  lemma {:induction false} ChunksObey(s: Split, targets: seq<Target>)
    ensures forall k :: 0 <= k < |Chunks(s, targets)| ==> OneClass(s, Chunks(s, targets)[k])
    ensures s.sizes.ddic > 0 && s.sizes.safe > 0 ==> Obeys(s, Chunks(s, targets))
    decreases |targets|
  {
    if targets != [] {
      var n := FirstLength(s, targets);
      ChunksObey(s, targets[n..]);
      assert OneClass(s, targets[..n]);
      assert s.sizes.ddic > 0 && s.sizes.safe > 0 ==> WithinCap(s, targets[..n]);
      hide OneClass, WithinCap, FirstLength;
    }
  }

  /** How far the chunk that starts at i reaches. */
  function Next(s: Split, targets: seq<Target>, i: nat): (r: nat)
    requires i < |targets|
    ensures i < r <= |targets|
  {
    i + FirstLength(s, targets[i..])
  }

  lemma CountFrom(s: Split, targets: seq<Target>, i: nat)
    requires i < |targets|
    ensures |Chunks(s, targets[i..])| == 1 + |Chunks(s, targets[Next(s, targets, i)..])|
  {
    hide Chunks, FirstLength;
    var n := FirstLength(s, targets[i..]);
    ChunksUnfold(s, targets[i..], n);
    DropOfDrop(targets, i, i + n);
  }

  /** Started later inside a chunk, a chunk reaches at least as far. */
  lemma LaterReaches(s: Split, targets: seq<Target>, i: nat, j: nat)
    requires i < |targets| && i < j < Next(s, targets, i)
    ensures Next(s, targets, j) >= Next(s, targets, i)
  {
    var head, later := targets[i..], targets[j..];
    var n, m := FirstLength(s, head), FirstLength(s, later);
    hide FirstLength;
    assert s.Alike(head[0], head[j - i]) && later[0] == head[j - i];
    assert j + m < i + n ==> later[m] == head[j - i + m];
  }

  /** A suffix of the targets never takes more chunks. */
  lemma {:induction false} FewerTargetsFewerChunks(s: Split, targets: seq<Target>, i: nat, j: nat)
    requires i <= j <= |targets|
    ensures |Chunks(s, targets[j..])| <= |Chunks(s, targets[i..])|
    decreases |targets| - i
  {
    hide Chunks, Next;
    if i < j {
      CountFrom(s, targets, i);
      if j >= Next(s, targets, i) {
        FewerTargetsFewerChunks(s, targets, Next(s, targets, i), j);
      } else {
        LaterReaches(s, targets, i, j);
        CountFrom(s, targets, j);
        FewerTargetsFewerChunks(s, targets, Next(s, targets, i), Next(s, targets, j));
      }
    }
  }

  /** The first chunk is as long as the rules allow. */
  lemma HeadFits(s: Split, targets: seq<Target>, m: nat)
    requires targets != [] && m <= |targets| && OneClass(s, targets[..m]) && WithinCap(s, targets[..m])
    ensures m <= FirstLength(s, targets)
  {
    var head := targets[..m];
    assert forall i :: 0 <= i < m ==> head[i] == targets[i];
  }

  /** Replacing the head of a split by the greedy one costs nothing. */
  lemma {:induction false} GreedyHeadIsBest(s: Split, targets: seq<Target>, m: nat)
    requires m <= |targets| && OneClass(s, targets[..m]) && WithinCap(s, targets[..m])
    ensures |Chunks(s, targets)| <= 1 + |Chunks(s, targets[m..])|
  {
    hide OneClass, WithinCap, FirstLength, Chunks;
    var n := if targets == [] then 0 else FirstLength(s, targets);
    ChunksUnfold(s, targets, n);
    if targets != [] {
      HeadFits(s, targets, m);
      FewerTargetsFewerChunks(s, targets, m, n);
    }
  }

  /** No other order-preserving split by the same rules has fewer chunks. */
  lemma {:induction false} NoSplitIsShorter(s: Split, targets: seq<Target>, other: seq<seq<Target>>)
    requires Flatten(other) == targets && Obeys(s, other)
    ensures |Chunks(s, targets)| <= |other|
    decreases |other|
  {
    if other != [] {
      var head, tail := other[0], other[1..];
      assert OneClass(s, head) && WithinCap(s, head);
      assert Obeys(s, tail) by {
        assert forall k :: 0 <= k < |tail| ==> tail[k] == other[k + 1];
      }
      assert targets == head + Flatten(tail);
      hide Obeys, OneClass, WithinCap, Chunks, Flatten;
      NoSplitIsShorter(s, Flatten(tail), tail);
      assert targets[|head|..] == Flatten(tail) && targets[..|head|] == head;
      GreedyHeadIsBest(s, targets, |head|);
    }
  }
}
