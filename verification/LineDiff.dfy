/**
  The line differ of src/diff.ts: two rolling score rows, Hirschberg's divide and
  conquer pushing into one shared list, and the trimmed driver with its coarse fallback.
 */
module LineDiff {
  import opened Sequences
  import opened Alignment

  /** Ceiling on the cells of the trimmed score matrix. */
  const MAX_DIFF_CELLS := 4_000_000

  /** An element of an Int32Array. */
  newtype Int32 = x: int | -0x8000_0000 <= x < 0x8000_0000

  /** The list every level of the recursion pushes onto. */
  class EditList {
    var items: seq<Edit>

    constructor ()
      ensures items == []
    {
      items := [];
    }

    method Push(e: Edit)
      modifies this
      ensures items == old(items) + [e]
    {
      items := items + [e];
    }

    method PushAll(texts: seq<Line>, kind: Line -> Edit)
      modifies this
      ensures items == old(items) + MapLines(texts, kind)
    {
      for i := 0 to |texts|
        invariant items == old(items) + MapLines(texts, kind)[..i]
      {
        Push(kind(texts[i]));
      }
    }
  }

  function MapLines(texts: seq<Line>, kind: Line -> Edit): (r: seq<Edit>)
    ensures |r| == |texts| && forall i :: 0 <= i < |texts| ==> r[i] == kind(texts[i])
  {
    seq(|texts|, i requires 0 <= i < |texts| => kind(texts[i]))
  }

  const AsEq := (t: Line) => Eq(t)
  const AsDel := (t: Line) => Del(t)
  const AsIns := (t: Line) => Ins(t)

  lemma {:induction false} UniformSides(texts: seq<Line>)
    ensures IsScript(MapLines(texts, AsEq), texts, texts) && EqCount(MapLines(texts, AsEq)) == |texts|
    ensures IsScript(MapLines(texts, AsDel), texts, []) && EqCount(MapLines(texts, AsDel)) == 0
    ensures IsScript(MapLines(texts, AsIns), [], texts) && EqCount(MapLines(texts, AsIns)) == 0
  {
    if texts != [] {
      UniformSides(texts[1..]);
      assert MapLines(texts, AsEq)[1..] == MapLines(texts[1..], AsEq);
      assert MapLines(texts, AsDel)[1..] == MapLines(texts[1..], AsDel);
      assert MapLines(texts, AsIns)[1..] == MapLines(texts[1..], AsIns);
    }
  }

  // ----- the score rows ------------------------------------------------------------

  /** row[j] is the LCS length of a against the first j lines of b, for every j below n. */
  ghost predicate ScoresPrefixes(row: seq<Int32>, a: seq<Line>, b: seq<Line>, n: nat) {
    n <= |row| == |b| + 1 && forall j :: 0 <= j < n ==> row[j] as int == Lcs(a, b[..j])
  }

  /** The Int32 rows cannot wrap: no score exceeds the length of b. */
  lemma NoWrap(a: seq<Line>, b: seq<Line>)
    requires |b| <= MAX_DIFF_CELLS
    ensures forall j :: 0 <= j <= |b| ==> Lcs(a, b[..j]) <= MAX_DIFF_CELLS
  {
    forall j | 0 <= j <= |b|
      ensures Lcs(a, b[..j]) <= MAX_DIFF_CELLS
    {
      LcsAtMost(a, b[..j]);
    }
  }

  method LcsRow(a: seq<Line>, b: seq<Line>) returns (row: array<Int32>)
    requires |b| <= MAX_DIFF_CELLS
    ensures fresh(row) && ScoresPrefixes(row[..], a, b, |b| + 1)
  {
    var prev := new Int32[|b| + 1](_ => 0);
    var curr := new Int32[|b| + 1](_ => 0);
    for i := 0 to |a|
      invariant prev != curr && fresh(prev) && fresh(curr)
      invariant prev.Length == curr.Length == |b| + 1
      invariant ScoresPrefixes(prev[..], a[..i], b, |b| + 1)
    {
      FillRow(a[..i], a[i], b, prev, curr);
      assert a[..i] + [a[i]] == a[..i + 1];
      var swap := prev;
      prev := curr;
      curr := swap;
    }
    assert a[..|a|] == a;
    row := prev;
  }

  /** One round of the outer loop: the row for a + [x] from the row for a. */
  method FillRow(a: seq<Line>, x: Line, b: seq<Line>, prev: array<Int32>, curr: array<Int32>)
    requires prev != curr && prev.Length == curr.Length == |b| + 1 <= MAX_DIFF_CELLS + 1
    requires ScoresPrefixes(prev[..], a, b, |b| + 1)
    modifies curr
    ensures ScoresPrefixes(curr[..], a + [x], b, |b| + 1)
  {
    NoWrap(a + [x], b);
    NoWrap(a, b);
    curr[0] := 0;
    for j := 0 to |b|
      invariant ScoresPrefixes(curr[..], a + [x], b, j + 1)
    {
      assert b[..j] + [b[j]] == b[..j + 1];
      LcsSnoc(a, x, b[..j], b[j]);
      assert prev[..][j] == prev[j] && prev[..][j + 1] == prev[j + 1] && curr[..][j] == curr[j];
      assert Lcs(a + [x], b[..j + 1]) <= MAX_DIFF_CELLS;
      curr[j + 1] := if x == b[j] then prev[j] + 1 else if curr[j] < prev[j + 1] then prev[j + 1] else curr[j];
    }
  }

  lemma ReversedScore(row: seq<Int32>, a: seq<Line>, b: seq<Line>, i: nat)
    requires ScoresPrefixes(row, Reverse(a), Reverse(b), |b| + 1) && i <= |b|
    ensures row[|b| - i] as int == Lcs(a, b[i..])
  {
    assert Reverse(b)[..|b| - i] == Reverse(b[i..]);
    LcsReverse(a, b[i..]);
  }

  /** out[j] is the LCS length of a against b from line j on. */
  ghost predicate ScoresSuffixes(out: seq<Int32>, a: seq<Line>, b: seq<Line>) {
    |out| == |b| + 1 && forall j :: 0 <= j <= |b| ==> out[j] as int == Lcs(a, b[j..])
  }

  method LcsRowReversed(a: seq<Line>, b: seq<Line>) returns (out: array<Int32>)
    requires |b| <= MAX_DIFF_CELLS
    ensures fresh(out) && ScoresSuffixes(out[..], a, b)
  {
    var ra, rb := Reverse(a), Reverse(b);
    var row := LcsRow(ra, rb);
    ghost var scores := row[..];
    out := new Int32[row.Length](_ => 0);
    for i := 0 to row.Length
      invariant row[..] == scores
      invariant forall j :: 0 <= j < i ==> out[j] == scores[|b| - j]
    {
      out[i] := row[row.Length - 1 - i];
    }
    forall j | 0 <= j <= |b|
      ensures out[..][j] as int == Lcs(a, b[j..])
    {
      ReversedScore(scores, a, b, j);
    }
  }

  // ----- Hirschberg ---------------------------------------------------------------

  /** Neither side of a non-trivial problem is longer than the cell ceiling. */
  ghost predicate Affordable(a: seq<Line>, b: seq<Line>) {
    a == [] || b == [] || (|a| <= MAX_DIFF_CELLS && |b| <= MAX_DIFF_CELLS)
  }

  ghost predicate Optimal(es: seq<Edit>, a: seq<Line>, b: seq<Line>) {
    IsScript(es, a, b) && EqCount(es) == Lcs(a, b)
  }

  /** What aligning a1 with the first j lines of b and a2 with the rest keeps. */
  function SplitScore(a1: seq<Line>, a2: seq<Line>, b: seq<Line>, j: nat): nat
    requires j <= |b|
  {
    Lcs(a1, b[..j]) + Lcs(a2, b[j..])
  }

  lemma SplitScoreBound(a1: seq<Line>, a2: seq<Line>, b: seq<Line>, j: nat)
    requires j <= |b|
    ensures SplitScore(a1, a2, b, j) <= Lcs(a1 + a2, b)
  {
    LcsConcat(a1, a2, b[..j], b[j..]);
    assert b[..j] + b[j..] == b;
  }

  /** A best split of b, and no smaller index is one. */
  ghost predicate FirstBestSplit(a1: seq<Line>, a2: seq<Line>, b: seq<Line>, split: nat) {
    && split <= |b|
    && SplitScore(a1, a2, b, split) == Lcs(a1 + a2, b)
    && forall j :: 0 <= j < split ==> SplitScore(a1, a2, b, j) < SplitScore(a1, a2, b, split)
  }

  lemma ScoreAt(head: seq<Int32>, tail: seq<Int32>, a1: seq<Line>, a2: seq<Line>, b: seq<Line>, j: nat)
    requires ScoresPrefixes(head, a1, b, |b| + 1) && ScoresSuffixes(tail, a2, b) && j <= |b|
    ensures j < |head| && j < |tail| && head[j] as int + tail[j] as int == SplitScore(a1, a2, b, j)
  {
  }

  method FindSplit(a1: seq<Line>, a2: seq<Line>, b: seq<Line>) returns (split: nat)
    requires |b| <= MAX_DIFF_CELLS
    ensures FirstBestSplit(a1, a2, b, split)
  {
    var headRow := LcsRow(a1, b);
    var tailRow := LcsRowReversed(a2, b);
    var head, tail := headRow[..], tailRow[..];
    hide SplitScore, ScoresPrefixes, ScoresSuffixes, Lcs, BestBelow;
    var best := -1;
    split := 0;
    for j := 0 to |b| + 1
      invariant split <= |b| && (j == 0 ==> split == 0 && best == -1)
      invariant j > 0 ==> best == SplitScore(a1, a2, b, split) && BestBelow(a1, a2, b, split, j)
    {
      ScoreAt(head, tail, a1, a2, b, j);
      BestStep(a1, a2, b, split, j);
      var score := head[j] as int + tail[j] as int;
      if score > best {
        best := score;
        split := j;
      }
    }
    BestIsReached(a1, a2, b, split);
  }

  /** Of the cuts below j, split is the first of the best. */
  ghost predicate BestBelow(a1: seq<Line>, a2: seq<Line>, b: seq<Line>, split: nat, j: nat)
    requires split <= |b| && j <= |b| + 1
  {
    && split < j
    && (forall k :: 0 <= k < j ==> SplitScore(a1, a2, b, k) <= SplitScore(a1, a2, b, split))
    && (forall k :: 0 <= k < split ==> SplitScore(a1, a2, b, k) < SplitScore(a1, a2, b, split))
  }

  lemma BestStep(a1: seq<Line>, a2: seq<Line>, b: seq<Line>, split: nat, j: nat)
    requires split <= |b| && j <= |b| && (j > 0 ==> BestBelow(a1, a2, b, split, j))
    ensures j == 0 || SplitScore(a1, a2, b, j) > SplitScore(a1, a2, b, split) ==> BestBelow(a1, a2, b, j, j + 1)
    ensures j > 0 && SplitScore(a1, a2, b, j) <= SplitScore(a1, a2, b, split) ==> BestBelow(a1, a2, b, split, j + 1)
  {
    hide SplitScore;
  }

  /** A split no other one beats reaches the whole score. */
  lemma BestIsReached(a1: seq<Line>, a2: seq<Line>, b: seq<Line>, split: nat)
    requires split <= |b| && BestBelow(a1, a2, b, split, |b| + 1)
    ensures FirstBestSplit(a1, a2, b, split)
  {
    var k := LcsSplit(a1, a2, b);
    assert SplitScore(a1, a2, b, k) == Lcs(a1 + a2, b);
    SplitScoreBound(a1, a2, b, split);
  }

  /** A trailing insertion can move to the other half at no loss. */
  lemma TrailingInsertion(es: seq<Edit>, a1: seq<Line>, a2: seq<Line>, b: seq<Line>, split: nat)
    requires split <= |b| && Optimal(es, a1, b[..split]) && es != [] && es[|es| - 1].Ins?
    ensures split > 0 && SplitScore(a1, a2, b, split) <= SplitScore(a1, a2, b, split - 1)
  {
    var init, last := es[..|es| - 1], es[|es| - 1];
    assert es == init + [last];
    SidesConcat(init, [last]);
    assert b[..split] == NewSide(init) + [last.text];
    assert NewSide(init) == b[..split - 1];
    assert OldSide(init) == a1;
    ScriptBound(init);
    LcsDropHead(a2, b[split - 1..]);
    assert b[split - 1..][1..] == b[split..];
  }

  /** The earliest best split leaves no insertion at the end of the left half. */
  lemma LeftHalfEndsKept(es: seq<Edit>, a1: seq<Line>, a2: seq<Line>, b: seq<Line>, split: nat)
    requires FirstBestSplit(a1, a2, b, split) && Optimal(es, a1, b[..split])
    ensures es != [] ==> !es[|es| - 1].Ins?
  {
    if es != [] && es[|es| - 1].Ins? {
      TrailingInsertion(es, a1, a2, b, split);
    }
  }

  lemma JoinHalves(left: seq<Edit>, right: seq<Edit>, a1: seq<Line>, a2: seq<Line>, b: seq<Line>, split: nat)
    requires FirstBestSplit(a1, a2, b, split)
    requires Optimal(left, a1, b[..split]) && DelsFirst(left)
    requires Optimal(right, a2, b[split..]) && DelsFirst(right)
    ensures Optimal(left + right, a1 + a2, b) && DelsFirst(left + right)
  {
    SidesConcat(left, right);
    assert b[..split] + b[split..] == b;
    LeftHalfEndsKept(left, a1, a2, b, split);
  }

  /** Pushes a best edit script of a and b, its deletions before its insertions. */
  method Hirschberg(a: seq<Line>, b: seq<Line>, out: EditList) returns (ghost pushed: seq<Edit>)
    requires Affordable(a, b)
    modifies out
    ensures out.items == old(out.items) + pushed
    ensures Optimal(pushed, a, b) && DelsFirst(pushed)
    decreases |a|
  {
    if |a| == 0 {
      out.PushAll(b, AsIns);
      pushed := MapLines(b, AsIns);
      UniformSides(b);
      return;
    }
    if |b| == 0 {
      out.PushAll(a, AsDel);
      pushed := MapLines(a, AsDel);
      UniformSides(a);
      return;
    }
    if |a| == 1 {
      assert a == [a[0]];
      pushed := AlignOne(a[0], b, out);
      return;
    }
    var mid := |a| / 2;
    var split := FindSplit(a[..mid], a[mid..], b);
    ghost var left := Hirschberg(a[..mid], b[..split], out);
    ghost var right := Hirschberg(a[mid..], b[split..], out);
    pushed := left + right;
    JoinHalves(left, right, a[..mid], a[mid..], b, split);
    assert a[..mid] + a[mid..] == a;
  }

  /** The script for one old line that does not occur in b. */
  lemma OneAbsent(only: Line, b: seq<Line>)
    requires only !in b
    ensures var es := [Del(only)] + MapLines(b, AsIns); Optimal(es, [only], b) && DelsFirst(es)
  {
    UniformSides(b);
    SidesConcat([Del(only)], MapLines(b, AsIns));
    LcsOfOne(only, b);
  }

  /** The script for one old line kept between the insertions around it. */
  lemma OneKept(only: Line, before: seq<Line>, after: seq<Line>)
    ensures var es := MapLines(before, AsIns) + ([Eq(only)] + MapLines(after, AsIns));
            Optimal(es, [only], before + ([only] + after)) && DelsFirst(es)
  {
    var x, y := MapLines(before, AsIns), MapLines(after, AsIns);
    UniformSides(before);
    UniformSides(after);
    SidesConcat(x, [Eq(only)] + y);
    ConsSides(Eq(only), y);
    var b := before + ([only] + after);
    LcsOfOne(only, b);
    assert b[|before|] == only;
  }

  method IndexOf(b: seq<Line>, only: Line) returns (idx: nat)
    ensures idx <= |b| && (idx < |b| ==> b[idx] == only)
    ensures idx == |b| ==> only !in b
  {
    idx := 0;
    while idx < |b| && b[idx] != only
      invariant 0 <= idx <= |b| && forall i :: 0 <= i < idx ==> b[i] != only
    {
      idx := idx + 1;
    }
  }

  /** The base case of a single old line: keep its first occurrence, if any. */
  method AlignOne(only: Line, b: seq<Line>, out: EditList) returns (ghost pushed: seq<Edit>)
    modifies out
    ensures out.items == old(out.items) + pushed
    ensures Optimal(pushed, [only], b) && DelsFirst(pushed)
  {
    var idx := IndexOf(b, only);
    ghost var was := out.items;
    if idx == |b| {
      out.Push(Del(only));
      out.PushAll(b, AsIns);
      pushed := [Del(only)] + MapLines(b, AsIns);
      Assoc(was, [Del(only)], MapLines(b, AsIns));
      OneAbsent(only, b);
    } else {
      var before, after := b[..idx], b[idx + 1..];
      ghost var x, y := MapLines(before, AsIns), MapLines(after, AsIns);
      out.PushAll(before, AsIns);
      out.Push(Eq(only));
      out.PushAll(after, AsIns);
      pushed := x + ([Eq(only)] + y);
      Assoc(was + x, [Eq(only)], y);
      Assoc(was, x, [Eq(only)] + y);
      assert b == before + ([only] + after);
      OneKept(only, before, after);
    }
  }

  // ----- the driver -----------------------------------------------------------------

  /** start is the number of leading lines two lists share. */
  ghost predicate IsCommonPrefix(a: seq<Line>, b: seq<Line>, start: nat) {
    && start <= |a| && start <= |b|
    && (forall i :: 0 <= i < start ==> a[i] == b[i])
    && (start < |a| && start < |b| ==> a[start] != b[start])
  }

  function FromEnd(a: seq<Line>, i: nat): Line
    requires i < |a|
  {
    a[|a| - 1 - i]
  }

  /** end is the number of trailing lines two lists share behind their first `start` lines. */
  ghost predicate IsCommonSuffix(a: seq<Line>, b: seq<Line>, start: nat, end: nat) {
    && start + end <= |a| && start + end <= |b|
    && (forall i :: 0 <= i < end ==> FromEnd(a, i) == FromEnd(b, i))
    && (start + end < |a| && start + end < |b| ==> FromEnd(a, end) != FromEnd(b, end))
  }

  /** Size of the score matrix of what trimming leaves. */
  function Cells(a: seq<Line>, b: seq<Line>, start: nat, end: nat): int {
    (|a| - start - end) * (|b| - start - end)
  }

  /** The trimming that leaves the smallest middles; there is exactly one. */
  ghost predicate Trims(a: seq<Line>, b: seq<Line>, start: nat, end: nat) {
    IsCommonPrefix(a, b, start) && IsCommonSuffix(a, b, start, end)
  }

  lemma TrimsUnique(a: seq<Line>, b: seq<Line>, s: nat, e: nat, s': nat, e': nat)
    requires Trims(a, b, s, e) && Trims(a, b, s', e')
    ensures s == s' && e == e'
  {
  }

  method TrimStart(a: seq<Line>, b: seq<Line>) returns (start: nat)
    ensures IsCommonPrefix(a, b, start)
  {
    start := 0;
    var maxStart := if |a| < |b| then |a| else |b|;
    while start < maxStart && a[start] == b[start]
      invariant start <= maxStart
      invariant forall i :: 0 <= i < start ==> a[i] == b[i]
    {
      start := start + 1;
    }
  }

  method TrimEnd(a: seq<Line>, b: seq<Line>, start: nat) returns (end: nat)
    requires start <= |a| && start <= |b|
    ensures IsCommonSuffix(a, b, start, end)
  {
    end := 0;
    var maxEnd := (if |a| < |b| then |a| else |b|) - start;
    while end < maxEnd && a[|a| - 1 - end] == b[|b| - 1 - end]
      invariant end <= maxEnd
      invariant forall i :: 0 <= i < end ==> FromEnd(a, i) == FromEnd(b, i)
    {
      end := end + 1;
    }
  }

  lemma CellsBoundSides(x: nat, y: nat)
    requires x > 0 && y > 0 && x * y <= MAX_DIFF_CELLS
    ensures x <= MAX_DIFF_CELLS && y <= MAX_DIFF_CELLS
  {
    assert x * 1 <= x * y && 1 * y <= x * y;
  }

  lemma SharedSuffix(a: seq<Line>, b: seq<Line>, start: nat, end: nat)
    requires Trims(a, b, start, end)
    ensures a == a[..start] + a[start..|a| - end] + a[|a| - end..]
    ensures b == a[..start] + b[start..|b| - end] + a[|a| - end..]
  {
    var x, y := a[|a| - end..], b[|b| - end..];
    forall i | 0 <= i < end
      ensures x[i] == y[i]
    {
      assert FromEnd(a, end - 1 - i) == FromEnd(b, end - 1 - i);
    }
  }

  /** What surrounding a script for the middles with the kept ends amounts to. */
  lemma WrapMiddle(prefix: seq<Line>, es: seq<Edit>, a: seq<Line>, b: seq<Line>, suffix: seq<Line>)
    requires IsScript(es, a, b) && DelsFirst(es)
    ensures var all := MapLines(prefix, AsEq) + es + MapLines(suffix, AsEq);
            && IsScript(all, prefix + a + suffix, prefix + b + suffix) && DelsFirst(all)
            && (Optimal(es, a, b) ==> Optimal(all, prefix + a + suffix, prefix + b + suffix))
  {
    UniformSides(prefix);
    UniformSides(suffix);
    SidesConcat(MapLines(prefix, AsEq), es);
    SidesConcat(MapLines(prefix, AsEq) + es, MapLines(suffix, AsEq));
    LcsTrim(prefix, a, b, suffix);
  }

  /** The fallback: every old line deleted, then every new line inserted. */
  lemma CoarseScript(a: seq<Line>, b: seq<Line>)
    ensures IsScript(MapLines(a, AsDel) + MapLines(b, AsIns), a, b)
    ensures DelsFirst(MapLines(a, AsDel) + MapLines(b, AsIns))
  {
    UniformSides(a);
    UniformSides(b);
    SidesConcat(MapLines(a, AsDel), MapLines(b, AsIns));
  }

  /** Pushes the script of the trimmed problem, exact when the score matrix is affordable. */
  method DiffMiddle(oldMid: seq<Line>, newMid: seq<Line>, out: EditList) returns (coarse: bool, ghost pushed: seq<Edit>)
    modifies out
    ensures out.items == old(out.items) + pushed
    ensures coarse <==> |oldMid| * |newMid| > MAX_DIFF_CELLS
    ensures IsScript(pushed, oldMid, newMid) && DelsFirst(pushed)
    ensures !coarse ==> Optimal(pushed, oldMid, newMid)
  {
    coarse := |oldMid| * |newMid| > MAX_DIFF_CELLS;
    if coarse {
      out.PushAll(oldMid, AsDel);
      out.PushAll(newMid, AsIns);
      pushed := MapLines(oldMid, AsDel) + MapLines(newMid, AsIns);
      CoarseScript(oldMid, newMid);
    } else {
      if |oldMid| > 0 && |newMid| > 0 {
        CellsBoundSides(|oldMid|, |newMid|);
      }
      pushed := Hirschberg(oldMid, newMid, out);
    }
  }

  lemma WholeScript(a: seq<Line>, b: seq<Line>, start: nat, end: nat, es: seq<Edit>)
    requires Trims(a, b, start, end)
    requires IsScript(es, a[start..|a| - end], b[start..|b| - end]) && DelsFirst(es)
    ensures var all := MapLines(a[..start], AsEq) + es + MapLines(a[|a| - end..], AsEq);
            && IsScript(all, a, b) && DelsFirst(all)
            && (Optimal(es, a[start..|a| - end], b[start..|b| - end]) ==> Optimal(all, a, b))
  {
    SharedSuffix(a, b, start, end);
    WrapMiddle(a[..start], es, a[start..|a| - end], b[start..|b| - end], a[|a| - end..]);
  }

  lemma FewestChanges(es: seq<Edit>, a: seq<Line>, b: seq<Line>)
    requires Optimal(es, a, b)
    ensures forall fs :: IsScript(fs, a, b) ==> ChangeCount(es) <= ChangeCount(fs)
  {
    forall fs | IsScript(fs, a, b)
      ensures ChangeCount(es) <= ChangeCount(fs)
    {
      MostKeptIsFewestChanged(es, fs, a, b);
    }
  }

  /**
    The edit script of two line lists. Always a correct script with deletions first;
    and, exactly when the trimmed matrix is affordable, one that changes as few lines as
    any script can.
   */
  method ComputeEditScript(oldLines: seq<Line>, newLines: seq<Line>) returns (edits: seq<Edit>, coarse: bool)
    ensures IsScript(edits, oldLines, newLines) && DelsFirst(edits)
    ensures exists start, end :: Trims(oldLines, newLines, start, end)
              && (coarse <==> Cells(oldLines, newLines, start, end) > MAX_DIFF_CELLS)
    ensures !coarse ==> EqCount(edits) == Lcs(oldLines, newLines)
    ensures !coarse ==> forall fs :: IsScript(fs, oldLines, newLines) ==> ChangeCount(edits) <= ChangeCount(fs)
  {
    var start := TrimStart(oldLines, newLines);
    var end := TrimEnd(oldLines, newLines, start);
    var oldMid := oldLines[start..|oldLines| - end];
    var newMid := newLines[start..|newLines| - end];

    var out := new EditList();
    out.PushAll(oldLines[..start], AsEq);
    ghost var pushed;
    coarse, pushed := DiffMiddle(oldMid, newMid, out);
    assert Trims(oldLines, newLines, start, end);
    assert |oldMid| * |newMid| == Cells(oldLines, newLines, start, end);
    out.PushAll(oldLines[|oldLines| - end..], AsEq);
    edits := out.items;

    ghost var prefix, suffix := MapLines(oldLines[..start], AsEq), MapLines(oldLines[|oldLines| - end..], AsEq);
    assert edits == prefix + pushed + suffix by {
      assert [] + prefix == prefix;
    }

    WholeScript(oldLines, newLines, start, end, pushed);
    if !coarse {
      FewestChanges(edits, oldLines, newLines);
    }
  }
}
