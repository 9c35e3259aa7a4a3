/**
  Edit scripts over two line lists and the length of a longest common subsequence.

  This is the reference side of the line diff of src/diff.ts: what an edit script is,
  which one is best, and the algebra (both ends, reversal, splitting) that the
  divide-and-conquer differ rests on.
 */
module Alignment {
  import opened Sequences

  type Line = string

  datatype Edit = Eq(text: Line) | Del(text: Line) | Ins(text: Line)

  // ----- edit scripts --------------------------------------------------------

  /** The old lines an edit script consumes. */
  function OldSide(es: seq<Edit>): seq<Line> {
    if es == [] then []
    else if es[0].Ins? then OldSide(es[1..])
    else [es[0].text] + OldSide(es[1..])
  }

  /** The new lines an edit script produces. */
  function NewSide(es: seq<Edit>): seq<Line> {
    if es == [] then []
    else if es[0].Del? then NewSide(es[1..])
    else [es[0].text] + NewSide(es[1..])
  }

  function EqCount(es: seq<Edit>): nat {
    if es == [] then 0 else (if es[0].Eq? then 1 else 0) + EqCount(es[1..])
  }

  /** Added plus removed lines. */
  function ChangeCount(es: seq<Edit>): nat {
    if es == [] then 0 else (if es[0].Eq? then 0 else 1) + ChangeCount(es[1..])
  }

  ghost predicate IsScript(es: seq<Edit>, a: seq<Line>, b: seq<Line>) {
    OldSide(es) == a && NewSide(es) == b
  }

  /** Within a run of changes every deletion precedes every insertion. */
  ghost predicate DelsFirst(es: seq<Edit>) {
    forall i :: 0 <= i < |es| - 1 && es[i].Ins? ==> !es[i + 1].Del?
  }

  lemma ConsSides(e: Edit, es: seq<Edit>)
    ensures OldSide([e] + es) == (if e.Ins? then [] else [e.text]) + OldSide(es)
    ensures NewSide([e] + es) == (if e.Del? then [] else [e.text]) + NewSide(es)
    ensures EqCount([e] + es) == (if e.Eq? then 1 else 0) + EqCount(es)
    ensures ChangeCount([e] + es) == (if e.Eq? then 0 else 1) + ChangeCount(es)
  {
    assert ([e] + es)[1..] == es;
  }

  lemma OldSideUnfold(es: seq<Edit>)
    requires es != []
    ensures OldSide(es) == if es[0].Ins? then OldSide(es[1..]) else [es[0].text] + OldSide(es[1..])
  {
  }

  lemma {:induction false} OldSideConcat(es: seq<Edit>, fs: seq<Edit>)
    ensures OldSide(es + fs) == OldSide(es) + OldSide(fs)
  {
    if es == [] {
      assert es + fs == fs;
    } else {
      hide OldSide;
      OldSideConcat(es[1..], fs);
      assert (es + fs)[1..] == es[1..] + fs;
      OldSideUnfold(es);
      OldSideUnfold(es + fs);
    }
  }

  lemma NewSideUnfold(es: seq<Edit>)
    requires es != []
    ensures NewSide(es) == if es[0].Del? then NewSide(es[1..]) else [es[0].text] + NewSide(es[1..])
  {
  }

  lemma {:induction false} NewSideConcat(es: seq<Edit>, fs: seq<Edit>)
    ensures NewSide(es + fs) == NewSide(es) + NewSide(fs)
  {
    if es == [] {
      assert es + fs == fs;
    } else {
      hide NewSide;
      NewSideConcat(es[1..], fs);
      assert (es + fs)[1..] == es[1..] + fs;
      NewSideUnfold(es);
      NewSideUnfold(es + fs);
    }
  }

  lemma {:induction false} CountsConcat(es: seq<Edit>, fs: seq<Edit>)
    ensures EqCount(es + fs) == EqCount(es) + EqCount(fs)
    ensures ChangeCount(es + fs) == ChangeCount(es) + ChangeCount(fs)
  {
    if es == [] {
      assert es + fs == fs;
    } else {
      CountsConcat(es[1..], fs);
      assert (es + fs)[1..] == es[1..] + fs;
    }
  }

  lemma SidesConcat(es: seq<Edit>, fs: seq<Edit>)
    ensures OldSide(es + fs) == OldSide(es) + OldSide(fs)
    ensures NewSide(es + fs) == NewSide(es) + NewSide(fs)
    ensures EqCount(es + fs) == EqCount(es) + EqCount(fs)
    ensures ChangeCount(es + fs) == ChangeCount(es) + ChangeCount(fs)
  {
    OldSideConcat(es, fs);
    NewSideConcat(es, fs);
    CountsConcat(es, fs);
  }

  /** Every script over the same sides trades one kept line for two changed ones. */
  lemma {:induction false} ScriptSize(es: seq<Edit>)
    ensures ChangeCount(es) + 2 * EqCount(es) == |OldSide(es)| + |NewSide(es)|
  {
    if es != [] {
      ScriptSize(es[1..]);
    }
  }

  // ----- the recursive LCS length --------------------------------------------

  function Max(x: nat, y: nat): nat { if x < y then y else x }

  function Lcs(a: seq<Line>, b: seq<Line>): nat
    decreases |a| + |b|
  {
    if a == [] || b == [] then 0
    else if a[0] == b[0] then 1 + Lcs(a[1..], b[1..])
    else Max(Lcs(a[1..], b), Lcs(a, b[1..]))
  }

  /** Dropping a head line costs at most one, and never gains. */
  lemma {:induction false} LcsDropHead(a: seq<Line>, b: seq<Line>)
    ensures a != [] ==> Lcs(a[1..], b) <= Lcs(a, b) <= Lcs(a[1..], b) + 1
    ensures b != [] ==> Lcs(a, b[1..]) <= Lcs(a, b) <= Lcs(a, b[1..]) + 1
    decreases |a| + |b|
  {
    if a != [] && b != [] {
      LcsDropHead(a[1..], b);
      LcsDropHead(a, b[1..]);
    }
  }

  /** No edit script keeps more lines than Lcs says ... */
  lemma {:induction false} ScriptBound(es: seq<Edit>)
    ensures EqCount(es) <= Lcs(OldSide(es), NewSide(es))
  {
    if es != [] {
      ScriptBound(es[1..]);
      LcsDropHead(OldSide(es), NewSide(es));
    }
  }

  /** ... and some script keeps exactly that many. */
  function BestScript(a: seq<Line>, b: seq<Line>): (es: seq<Edit>)
    ensures IsScript(es, a, b) && EqCount(es) == Lcs(a, b)
    decreases |a| + |b|
  {
    if a == [] && b == [] then []
    else if a == [] then [Ins(b[0])] + BestScript(a, b[1..])
    else if b == [] then [Del(a[0])] + BestScript(a[1..], b)
    else if a[0] == b[0] then [Eq(a[0])] + BestScript(a[1..], b[1..])
    else if Lcs(a, b[1..]) <= Lcs(a[1..], b) then [Del(a[0])] + BestScript(a[1..], b)
    else [Ins(b[0])] + BestScript(a, b[1..])
  }

  // ----- Lcs really is the length of a longest common subsequence -------------

  /** f picks the positions of c inside a, left to right. */
  ghost predicate Embeds(c: seq<Line>, a: seq<Line>, f: seq<nat>) {
    && |f| == |c|
    && (forall i :: 0 <= i < |f| ==> f[i] < |a| && a[f[i]] == c[i])
    && (forall i, j :: 0 <= i < j < |f| ==> f[i] < f[j])
  }

  ghost predicate CommonSubsequence(c: seq<Line>, a: seq<Line>, b: seq<Line>) {
    (exists f: seq<nat> :: Embeds(c, a, f)) && (exists g: seq<nat> :: Embeds(c, b, g))
  }

  function Kept(es: seq<Edit>): seq<Line> {
    if es == [] then []
    else if es[0].Eq? then [es[0].text] + Kept(es[1..])
    else Kept(es[1..])
  }

  lemma {:induction false} ShiftEmbedding(c: seq<Line>, a: seq<Line>, f: seq<nat>) returns (g: seq<nat>)
    requires a != [] && Embeds(c, a, f) && (c == [] || f[0] > 0)
    ensures Embeds(c, a[1..], g) && |g| == |f| && forall i :: 0 <= i < |f| ==> g[i] == f[i] - 1
  {
    assert forall i :: 0 <= i < |f| ==> f[i] > 0;
    g := seq(|f|, i requires 0 <= i < |f| => f[i] - 1);
  }

  lemma {:induction false} EmbeddedBound(c: seq<Line>, a: seq<Line>, f: seq<nat>, b: seq<Line>, g: seq<nat>)
    requires Embeds(c, a, f) && Embeds(c, b, g)
    ensures |c| <= Lcs(a, b)
    decreases |a| + |b|
  {
    if c != [] {
      LcsDropHead(a, b);
      if f[0] > 0 {
        var f' := ShiftEmbedding(c, a, f);
        EmbeddedBound(c, a[1..], f', b, g);
      } else if g[0] > 0 {
        var g' := ShiftEmbedding(c, b, g);
        EmbeddedBound(c, a, f, b[1..], g');
      } else {
        assert Embeds(c[1..], a, f[1..]) && Embeds(c[1..], b, g[1..]);
        var f' := ShiftEmbedding(c[1..], a, f[1..]);
        var g' := ShiftEmbedding(c[1..], b, g[1..]);
        EmbeddedBound(c[1..], a[1..], f', b[1..], g');
      }
    }
  }

  lemma {:induction false} GrowEmbedding(c: seq<Line>, a: seq<Line>, f: seq<nat>, x: Line) returns (g: seq<nat>)
    requires Embeds(c, a, f)
    ensures Embeds(c, [x] + a, g) && forall i :: 0 <= i < |g| ==> g[i] > 0
  {
    g := seq(|f|, i requires 0 <= i < |f| => f[i] + 1);
  }

  lemma {:induction false} ConsEmbedding(c: seq<Line>, a: seq<Line>, f: seq<nat>, x: Line) returns (g: seq<nat>)
    requires Embeds(c, a, f)
    ensures Embeds([x] + c, [x] + a, g)
  {
    var f' := GrowEmbedding(c, a, f, x);
    g := [0] + f';
  }

  lemma {:induction false} KeptInOld(es: seq<Edit>) returns (f: seq<nat>)
    ensures Embeds(Kept(es), OldSide(es), f)
  {
    if es == [] {
      f := [];
    } else {
      var e, rest := es[0], es[1..];
      f := KeptInOld(rest);
      if e.Eq? {
        f := ConsEmbedding(Kept(rest), OldSide(rest), f, e.text);
      } else if e.Del? {
        f := GrowEmbedding(Kept(rest), OldSide(rest), f, e.text);
      }
    }
  }

  lemma {:induction false} KeptInNew(es: seq<Edit>) returns (f: seq<nat>)
    ensures Embeds(Kept(es), NewSide(es), f)
  {
    if es == [] {
      f := [];
    } else {
      var e, rest := es[0], es[1..];
      f := KeptInNew(rest);
      if e.Eq? {
        f := ConsEmbedding(Kept(rest), NewSide(rest), f, e.text);
      } else if e.Ins? {
        f := GrowEmbedding(Kept(rest), NewSide(rest), f, e.text);
      }
    }
  }

  lemma {:induction false} KeptLength(es: seq<Edit>)
    ensures |Kept(es)| == EqCount(es)
  {
    if es != [] {
      KeptLength(es[1..]);
    }
  }

  /** Lcs(a, b) is attained by a common subsequence and exceeded by none. */
  lemma LcsIsLongest(a: seq<Line>, b: seq<Line>)
    ensures exists c :: CommonSubsequence(c, a, b) && |c| == Lcs(a, b)
    ensures forall c :: CommonSubsequence(c, a, b) ==> |c| <= Lcs(a, b)
  {
    var es := BestScript(a, b);
    var f := KeptInOld(es);
    var g := KeptInNew(es);
    KeptLength(es);
    assert CommonSubsequence(Kept(es), a, b);
    forall c | CommonSubsequence(c, a, b)
      ensures |c| <= Lcs(a, b)
    {
      var f: seq<nat> :| Embeds(c, a, f);
      var g: seq<nat> :| Embeds(c, b, g);
      EmbeddedBound(c, a, f, b, g);
    }
  }

  /** A script that keeps Lcs many lines changes no more lines than any other script. */
  lemma MostKeptIsFewestChanged(es: seq<Edit>, fs: seq<Edit>, a: seq<Line>, b: seq<Line>)
    requires IsScript(es, a, b) && EqCount(es) == Lcs(a, b)
    requires IsScript(fs, a, b)
    ensures ChangeCount(es) <= ChangeCount(fs)
  {
    ScriptBound(fs);
    ScriptSize(es);
    ScriptSize(fs);
  }

  // ----- reversal, both ends ---------------------------------------------------

  lemma {:induction false} ReverseScript(es: seq<Edit>)
    ensures IsScript(Reverse(es), Reverse(OldSide(es)), Reverse(NewSide(es)))
    ensures EqCount(Reverse(es)) == EqCount(es)
  {
    if es != [] {
      var e, rest := es[0], es[1..];
      ReverseScript(rest);
      SidesConcat(Reverse(rest), [e]);
      ConsSides(e, []);
      assert [e] + [] == [e];
    }
  }

  lemma LcsReverse(a: seq<Line>, b: seq<Line>)
    ensures Lcs(Reverse(a), Reverse(b)) == Lcs(a, b)
  {
    ReverseScript(BestScript(a, b));
    ScriptBound(Reverse(BestScript(a, b)));
    var r := BestScript(Reverse(a), Reverse(b));
    ReverseScript(r);
    ReverseTwice(a);
    ReverseTwice(b);
    ScriptBound(Reverse(r));
  }

  /** The recurrence on last lines, which is the one a row of the score matrix follows. */
  lemma LcsSnoc(a: seq<Line>, x: Line, b: seq<Line>, y: Line)
    ensures Lcs(a + [x], b + [y]) == if x == y then Lcs(a, b) + 1 else Max(Lcs(a, b + [y]), Lcs(a + [x], b))
  {
    var ra, rb := Reverse(a), Reverse(b);
    assert Reverse(a + [x]) == [x] + ra && Reverse(b + [y]) == [y] + rb;
    assert ([x] + ra)[1..] == ra && ([y] + rb)[1..] == rb;
    LcsReverse(a + [x], b + [y]);
    LcsReverse(a, b);
    LcsReverse(a, b + [y]);
    LcsReverse(a + [x], b);
  }

  /** Common lines at either end belong to every best alignment. */
  lemma {:induction false} LcsTrim(p: seq<Line>, a: seq<Line>, b: seq<Line>, s: seq<Line>)
    ensures Lcs(p + a + s, p + b + s) == |p| + Lcs(a, b) + |s|
    decreases |p| + |s|
  {
    if p != [] {
      assert (p + a + s)[1..] == p[1..] + a + s && (p + b + s)[1..] == p[1..] + b + s;
      LcsTrim(p[1..], a, b, s);
    } else if s != [] {
      var t, x := s[..|s| - 1], s[|s| - 1];
      assert p + a + s == (p + a + t) + [x] && p + b + s == (p + b + t) + [x];
      LcsSnoc(p + a + t, x, p + b + t, x);
      LcsTrim(p, a, b, t);
    } else {
      assert p + a + s == a && p + b + s == b;
    }
  }

  // ----- splitting the old side --------------------------------------------------

  lemma LcsConcat(a1: seq<Line>, a2: seq<Line>, b1: seq<Line>, b2: seq<Line>)
    ensures Lcs(a1, b1) + Lcs(a2, b2) <= Lcs(a1 + a2, b1 + b2)
  {
    SidesConcat(BestScript(a1, b1), BestScript(a2, b2));
    ScriptBound(BestScript(a1, b1) + BestScript(a2, b2));
  }

  /** A script can be cut where it has consumed exactly n old lines. */
  lemma {:induction false} CutScript(es: seq<Edit>, n: nat) returns (k: nat)
    requires n <= |OldSide(es)|
    ensures k <= |es| && OldSide(es[..k]) == OldSide(es)[..n] && OldSide(es[k..]) == OldSide(es)[n..]
  {
    if n == 0 {
      k := 0;
    } else {
      k := CutScript(es[1..], if es[0].Ins? then n else n - 1);
      assert es[..k + 1] == [es[0]] + es[1..][..k] && es[k + 1..] == es[1..][k..];
      k := k + 1;
    }
  }

  /** Some split of the new side is optimal for a given split of the old side. */
  lemma LcsSplit(a1: seq<Line>, a2: seq<Line>, b: seq<Line>) returns (j: nat)
    ensures j <= |b| && Lcs(a1 + a2, b) == Lcs(a1, b[..j]) + Lcs(a2, b[j..])
  {
    var es := BestScript(a1 + a2, b);
    var k := CutScript(es, |a1|);
    assert es == es[..k] + es[k..];
    SidesConcat(es[..k], es[k..]);
    j := |NewSide(es[..k])|;
    assert b[..j] == NewSide(es[..k]) && b[j..] == NewSide(es[k..]);
    ScriptBound(es[..k]);
    ScriptBound(es[k..]);
    assert b == b[..j] + b[j..];
    LcsConcat(a1, a2, b[..j], b[j..]);
  }

  // ----- small facts ---------------------------------------------------------------

  lemma {:induction false} LcsOfOne(x: Line, b: seq<Line>)
    ensures Lcs([x], b) == if x in b then 1 else 0
  {
    if b != [] {
      LcsOfOne(x, b[1..]);
    }
  }

  lemma {:induction false} LcsAtMost(a: seq<Line>, b: seq<Line>)
    ensures Lcs(a, b) <= |a| && Lcs(a, b) <= |b|
    decreases |a| + |b|
  {
    if a != [] && b != [] {
      LcsAtMost(a[1..], b[1..]);
      LcsAtMost(a[1..], b);
      LcsAtMost(a, b[1..]);
    }
  }

  lemma {:induction false} LcsOfSame(a: seq<Line>)
    ensures Lcs(a, a) == |a|
  {
    if a != [] {
      LcsOfSame(a[1..]);
    }
  }
}
