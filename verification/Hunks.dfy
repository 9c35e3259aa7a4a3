/**
  Grouping an edit script into unified-diff hunks (src/diff.ts), and what applying
  those hunks to the old lines gives.
 */
module Hunks {
  import opened Sequences
  import opened Alignment
  import opened Options

  /** Per-line display ceiling. */
  const DIFF_LINE_MAX := 512
  const DEFAULT_CONTEXT_LINES := 3
  const DISPLAY_ELLIPSIS := '\U{2026}'

  /** One `@@` block; line numbers are 1-based, lines carry their sigil. */
  datatype Hunk = Hunk(oldStart: nat, oldLines: nat, newStart: nat, newLines: nat, lines: seq<string>)

  function TruncateForDisplay(text: string, limit: nat): string {
    if |text| <= limit then text else text[..limit] + [DISPLAY_ELLIPSIS]
  }

  function Sigil(e: Edit): char {
    match e
    case Eq(_) => ' '
    case Del(_) => '-'
    case Ins(_) => '+'
  }

  function RenderLine(e: Edit): string {
    [Sigil(e)] + TruncateForDisplay(e.text, DIFF_LINE_MAX)
  }

  function Render(es: seq<Edit>): (r: seq<string>)
    ensures |r| == |es| && forall i :: 0 <= i < |es| ==> r[i] == RenderLine(es[i])
  {
    seq(|es|, i requires 0 <= i < |es| => RenderLine(es[i]))
  }

  /** A line whose display form is the line itself. */
  predicate Lossless(text: string) {
    |text| <= DIFF_LINE_MAX || (|text| == DIFF_LINE_MAX + 1 && text[DIFF_LINE_MAX] == DISPLAY_ELLIPSIS)
  }

  lemma LosslessIff(text: string)
    ensures TruncateForDisplay(text, DIFF_LINE_MAX) == text <==> Lossless(text)
  {
    if |text| == DIFF_LINE_MAX + 1 {
      assert text == text[..DIFF_LINE_MAX] + [text[DIFF_LINE_MAX]];
    }
  }

  // ----- what a patch means ---------------------------------------------------------

  /**
    Replays hunk lines against the old lines that are left: kept and removed lines must be
    there, added lines are produced. Gives the produced lines and the old lines left over.
   */
  function Replay(lines: seq<string>, rest: seq<Line>): Option<(seq<Line>, seq<Line>)> {
    if lines == [] then Some(([], rest))
    else if lines[0] == "" then None
    else
      var sigil, text := lines[0][0], lines[0][1..];
      if sigil == '+' then
        var r := Replay(lines[1..], rest);
        if r.None? then None else Some(([text] + r.value.0, r.value.1))
      else if sigil !in {' ', '-'} || rest == [] || rest[0] != text then None
      else
        var r := Replay(lines[1..], rest[1..]);
        if r.None? then None
        else Some(((if sigil == ' ' then [text] else []) + r.value.0, r.value.1))
  }

  /** Where a 1-based start with its count points, 0-based. */
  function Position(start: nat, count: nat): int {
    if count == 0 then start else start - 1
  }

  /**
    Applies hunks to the old lines from `oldPos` on, `newPos` new lines being written.
    Any header that disagrees with the file or with the hunk's own lines is a failure.
   */
  function PatchFrom(rest: seq<Line>, oldPos: nat, newPos: nat, hunks: seq<Hunk>): Option<seq<Line>>
    decreases |hunks|
  {
    if hunks == [] then Some(rest)
    else
      var h := hunks[0];
      var gap := Position(h.oldStart, h.oldLines) - oldPos;
      if gap < 0 || gap > |rest| || Position(h.newStart, h.newLines) != newPos + gap then None
      else
        var r := Replay(h.lines, rest[gap..]);
        if r.None? || |rest[gap..]| != h.oldLines + |r.value.1| || |r.value.0| != h.newLines then None
        else
          var tail := PatchFrom(r.value.1, oldPos + gap + h.oldLines, newPos + gap + h.newLines, hunks[1..]);
          if tail.None? then None else Some(rest[..gap] + r.value.0 + tail.value)
  }

  function Patch(oldLines: seq<Line>, hunks: seq<Hunk>): Option<seq<Line>> {
    PatchFrom(oldLines, 0, 0, hunks)
  }

  // ----- ranges of changes --------------------------------------------------------------

  /** From the first to the last changed edit of one hunk. */
  datatype Range = Range(from: nat, to: nat)

  function Lo(r: Range, context: nat): nat {
    if r.from < context then 0 else r.from - context
  }

  /** One past the last edit shown. */
  function End(es: seq<Edit>, r: Range, context: nat): nat {
    if |es| <= r.to + context then |es| else r.to + context + 1
  }

  /** Consecutive changes of a range lie within two context regions of each other. */
  ghost predicate Dense(es: seq<Edit>, r: Range, context: nat) {
    forall i :: r.from <= i < r.to ==> ChangeSoon(es, r.to, context, i)
  }

  ghost predicate ChangeSoon(es: seq<Edit>, to: nat, context: nat, i: int) {
    exists j :: 0 <= j < |es| && i < j <= to && j <= i + 2 * context + 1 && !es[j].Eq?
  }

  ghost predicate GoodRange(es: seq<Edit>, r: Range, context: nat) {
    r.from <= r.to < |es| && !es[r.from].Eq? && !es[r.to].Eq? && Dense(es, r, context)
  }

  /** Ordered, further apart than two context regions. */
  ghost predicate Separated(ranges: seq<Range>, context: nat) {
    forall k, l :: 0 <= k < l < |ranges| ==> ranges[l].from - ranges[k].to > 2 * context + 1
  }

  ghost predicate Covered(ranges: seq<Range>, i: int) {
    exists k :: 0 <= k < |ranges| && ranges[k].from <= i <= ranges[k].to
  }

  /** The ranges are exactly the maximal groups of neighbouring changes, in order. */
  ghost predicate RangesOf(es: seq<Edit>, ranges: seq<Range>, context: nat) {
    && (forall k :: 0 <= k < |ranges| ==> GoodRange(es, ranges[k], context))
    && Separated(ranges, context)
    && (forall i {:trigger Covered(ranges, i)} :: 0 <= i < |es| && !es[i].Eq? ==> Covered(ranges, i))
  }

  ghost function HunkOf(es: seq<Edit>, r: Range, context: nat): Hunk
    requires r.from <= r.to < |es|
  {
    var lo, end := Lo(r, context), End(es, r, context);
    var o, n := |OldSide(es[lo..end])|, |NewSide(es[lo..end])|;
    Hunk(if o == 0 then 0 else |OldSide(es[..lo])| + 1, o,
         if n == 0 then 0 else |NewSide(es[..lo])| + 1, n,
         Render(es[lo..end]))
  }

  ghost predicate HunksOf(es: seq<Edit>, ranges: seq<Range>, context: nat, hunks: seq<Hunk>) {
    && RangesOf(es, ranges, context)
    && |hunks| == |ranges|
    && forall k :: 0 <= k < |ranges| ==> hunks[k] == HunkOf(es, ranges[k], context)
  }

  // ----- replaying a rendered stretch of the script ------------------------------------

  /** The script as its display form reads. */
  function Shown(es: seq<Edit>): (r: seq<Edit>)
    ensures |r| == |es|
  {
    if es == [] then [] else [es[0].(text := TruncateForDisplay(es[0].text, DIFF_LINE_MAX))] + Shown(es[1..])
  }

  ghost predicate AllLossless(es: seq<Edit>) {
    forall i :: 0 <= i < |es| ==> Lossless(es[i].text)
  }

  lemma {:induction false} ShownFaithful(es: seq<Edit>)
    ensures (OldSide(Shown(es)) == OldSide(es) && NewSide(Shown(es)) == NewSide(es)) <==> AllLossless(es)
  {
    if es != [] {
      var e, rest := es[0], es[1..];
      LosslessIff(e.text);
      ShownFaithful(rest);
      assert Shown(es)[1..] == Shown(rest);
      assert AllLossless(es) <==> Lossless(e.text) && AllLossless(rest) by {
        assert es == [e] + rest;
      }
      var x, y := TruncateForDisplay(e.text, DIFF_LINE_MAX), e.text;
      HeadTail(x, OldSide(Shown(rest)), y, OldSide(rest));
      HeadTail(x, NewSide(Shown(rest)), y, NewSide(rest));
    }
  }

  lemma HeadTail<T>(x: T, xs: seq<T>, y: T, ys: seq<T>)
    ensures [x] + xs == [y] + ys <==> x == y && xs == ys
  {
    if [x] + xs == [y] + ys {
      assert ([x] + xs)[0] == ([y] + ys)[0];
      assert ([x] + xs)[1..] == ([y] + ys)[1..];
    }
  }

  /** Shown sides are as long as the real ones. */
  lemma {:induction false} ShownSizes(es: seq<Edit>)
    ensures |OldSide(Shown(es))| == |OldSide(es)| && |NewSide(Shown(es))| == |NewSide(es)|
  {
    if es != [] {
      ShownSizes(es[1..]);
    }
  }

  /** Replaying a rendered stretch fails exactly when a kept or removed line was cut. */
  ghost predicate ReplayExact(es: seq<Edit>, rest: seq<Line>) {
    Replay(Render(es), OldSide(es) + rest)
    == if OldSide(Shown(es)) == OldSide(es) then Some((NewSide(Shown(es)), rest)) else None
  }

  lemma ReplayStep(e: Edit, es: seq<Edit>, rest: seq<Line>)
    requires ReplayExact(es, rest)
    ensures ReplayExact([e] + es, rest)
  {
    var all, shown := [e] + es, TruncateForDisplay(e.text, DIFF_LINE_MAX);
    var lines := Render(all);
    assert lines[1..] == Render(es);
    assert lines[0] == [Sigil(e)] + shown;
    assert lines[0][1..] == shown;
    assert Shown(all) == [e.(text := shown)] + Shown(es) by {
      assert all[1..] == es;
    }
    ConsSides(e, es);
    ConsSides(e.(text := shown), Shown(es));
    HeadTail(shown, OldSide(Shown(es)), e.text, OldSide(es));
    if !e.Ins? {
      Assoc([e.text], OldSide(es), rest);
      assert ([e.text] + (OldSide(es) + rest))[1..] == OldSide(es) + rest;
    }
  }

  lemma {:induction false} ReplayIsExact(es: seq<Edit>, rest: seq<Line>)
    ensures ReplayExact(es, rest)
  {
    if es == [] {
      assert OldSide(es) + rest == rest;
    } else {
      ReplayIsExact(es[1..], rest);
      ReplayStep(es[0], es[1..], rest);
      assert es == [es[0]] + es[1..];
    }
  }

  // ----- one hunk --------------------------------------------------------------------------

  ghost predicate AllEq(es: seq<Edit>) {
    forall i :: 0 <= i < |es| ==> es[i].Eq?
  }

  lemma {:induction false} QuietSides(es: seq<Edit>)
    requires AllEq(es)
    ensures OldSide(es) == NewSide(es) && |OldSide(es)| == |es|
  {
    if es != [] {
      QuietSides(es[1..]);
    }
  }

  /** The header a correct patch needs for a body that stands behind `pre`. */
  ghost function HeaderOf(pre: seq<Edit>, body: seq<Edit>): Hunk {
    var o, n := |OldSide(body)|, |NewSide(body)|;
    Hunk(if o == 0 then 0 else |OldSide(pre)| + 1, o, if n == 0 then 0 else |NewSide(pre)| + 1, n, Render(body))
  }

  /** A side printed as line 0 is really at the top of the file. */
  ghost predicate HeaderTrue(pre: seq<Edit>, body: seq<Edit>) {
    && (OldSide(body) == [] ==> OldSide(pre) == [])
    && (NewSide(body) == [] ==> NewSide(pre) == [])
  }

  lemma SplitSides(pre: seq<Edit>, quiet: seq<Edit>)
    requires AllEq(quiet)
    ensures |OldSide(pre + quiet)| == |OldSide(pre)| + |quiet| && |NewSide(pre + quiet)| == |NewSide(pre)| + |quiet|
  {
    SidesConcat(pre, quiet);
    QuietSides(quiet);
  }

  /** A hunk whose header points to the wrong line is refused. */
  lemma WrongHeader(pre: seq<Edit>, quiet: seq<Edit>, body: seq<Edit>, rest: seq<Line>, hunks: seq<Hunk>)
    requires AllEq(quiet) && body != [] && hunks != [] && hunks[0] == HeaderOf(pre + quiet, body)
    requires !HeaderTrue(pre + quiet, body)
    ensures PatchFrom(rest, |OldSide(pre)|, |NewSide(pre)|, hunks) == None
  {
    SplitSides(pre, quiet);
    assert OldSide(body) != [] || NewSide(body) != [];
  }

  lemma UnfoldPatch(rest: seq<Line>, oldPos: nat, newPos: nat, hunks: seq<Hunk>, gap: nat, r: Option<(seq<Line>, seq<Line>)>)
    requires hunks != [] && gap <= |rest| && r == Replay(hunks[0].lines, rest[gap..])
    requires Position(hunks[0].oldStart, hunks[0].oldLines) == oldPos + gap
    requires Position(hunks[0].newStart, hunks[0].newLines) == newPos + gap
    ensures r.None? ==> PatchFrom(rest, oldPos, newPos, hunks) == None
    ensures r.Some? && |rest| - gap == hunks[0].oldLines + |r.value.1| && |r.value.0| == hunks[0].newLines ==>
      var tail := PatchFrom(r.value.1, oldPos + gap + hunks[0].oldLines, newPos + gap + hunks[0].newLines, hunks[1..]);
      PatchFrom(rest, oldPos, newPos, hunks) == if tail.None? then None else Some(rest[..gap] + r.value.0 + tail.value)
  {
  }

  /** A hunk that points to the right lines does what its shown lines say, then the rest follows. */
  lemma RightPlace(g: seq<Line>, body: seq<Edit>, tail: seq<Line>, oldPos: nat, newPos: nat, hunks: seq<Hunk>, next: Option<seq<Line>>)
    requires hunks != [] && hunks[0].lines == Render(body)
    requires hunks[0].oldLines == |OldSide(body)| && Position(hunks[0].oldStart, hunks[0].oldLines) == oldPos + |g|
    requires hunks[0].newLines == |NewSide(body)| && Position(hunks[0].newStart, hunks[0].newLines) == newPos + |g|
    requires next == PatchFrom(tail, oldPos + |g| + |OldSide(body)|, newPos + |g| + |NewSide(body)|, hunks[1..])
    ensures PatchFrom(g + (OldSide(body) + tail), oldPos, newPos, hunks)
         == if OldSide(Shown(body)) != OldSide(body) || next.None? then None else Some(g + NewSide(Shown(body)) + next.value)
  {
    hide PatchFrom, Replay, OldSide, NewSide, Shown, Render;
    ReplayIsExact(body, tail);
    ShownSizes(body);
    var rest := g + (OldSide(body) + tail);
    assert rest[|g|..] == OldSide(body) + tail && rest[..|g|] == g;
    UnfoldPatch(rest, oldPos, newPos, hunks, |g|, Replay(Render(body), OldSide(body) + tail));
  }

  lemma PartsEqual<T>(a: seq<T>, b: seq<T>, b': seq<T>, c: seq<T>, c': seq<T>)
    requires |b| == |b'|
    ensures a + b + c == a + b' + c' <==> b == b' && c == c'
  {
    if a + b + c == a + b' + c' {
      assert (a + b + c)[|a|..][..|b|] == b && (a + b' + c')[|a|..][..|b|] == b';
      assert (a + b + c)[|a| + |b|..] == c && (a + b' + c')[|a| + |b|..] == c';
    }
  }

  /** `after` can be patched into its own new side from where `done` leaves off. */
  ghost predicate Patches(done: seq<Edit>, after: seq<Edit>, hunks: seq<Hunk>) {
    PatchFrom(OldSide(after), |OldSide(done)|, |NewSide(done)|, hunks) == Some(NewSide(after))
  }

  /** One hunk and what follows give the new lines exactly if both do their part. */
  lemma HunkStep(pre: seq<Edit>, quiet: seq<Edit>, body: seq<Edit>, after: seq<Edit>, hunks: seq<Hunk>)
    requires AllEq(quiet) && body != [] && hunks != [] && hunks[0] == HeaderOf(pre + quiet, body)
    ensures Patches(pre, quiet + (body + after), hunks) <==>
      HeaderTrue(pre + quiet, body) && AllLossless(body) && Patches(pre + quiet + body, after, hunks[1..])
  {
    hide PatchFrom, OldSide, NewSide, Shown, Render;
    SidesConcat(quiet, body + after);
    SidesConcat(body, after);
    if !HeaderTrue(pre + quiet, body) {
      WrongHeader(pre, quiet, body, OldSide(quiet + (body + after)), hunks);
    } else {
      var done := pre + quiet + body;
      var next := PatchFrom(OldSide(after), |OldSide(done)|, |NewSide(done)|, hunks[1..]);
      QuietSides(quiet);
      SplitSides(pre, quiet);
      SidesConcat(pre + quiet, body);
      RightPlace(OldSide(quiet), body, OldSide(after), |OldSide(pre)|, |NewSide(pre)|, hunks, next);
      ShownFaithful(body);
      ShownSizes(body);
      if next.Some? {
        PartsEqual(OldSide(quiet), NewSide(Shown(body)), NewSide(body), next.value, NewSide(after));
        Assoc(OldSide(quiet), NewSide(body), NewSide(after));
      }
    }
  }

  // ----- all hunks ---------------------------------------------------------------------------

  /** Where the patch stands before the k-th hunk. */
  ghost function Cursor(es: seq<Edit>, ranges: seq<Range>, context: nat, k: nat): nat
    requires k <= |ranges|
  {
    if k == 0 then 0 else End(es, ranges[k - 1], context)
  }

  /** The hunk can be applied and shows its lines whole. */
  ghost predicate Faithful(es: seq<Edit>, r: Range, context: nat) {
    && r.from <= r.to < |es|
    && HeaderTrue(es[..Lo(r, context)], es[Lo(r, context)..End(es, r, context)])
    && AllLossless(es[Lo(r, context)..End(es, r, context)])
  }

  ghost predicate AllFaithful(es: seq<Edit>, ranges: seq<Range>, context: nat) {
    forall k :: 0 <= k < |ranges| ==> Faithful(es, ranges[k], context)
  }

  /** An edit that lies between two neighbouring ranges is no change. */
  lemma Uncovered(es: seq<Edit>, ranges: seq<Range>, context: nat, k: nat, i: nat)
    requires RangesOf(es, ranges, context) && k <= |ranges| && i < |es|
    requires k > 0 ==> ranges[k - 1].to < i
    requires k < |ranges| ==> i < ranges[k].from
    ensures es[i].Eq?
  {
    assert !Covered(ranges, i) by {
      forall l | 0 <= l < |ranges|
        ensures !(ranges[l].from <= i <= ranges[l].to)
      {
        assert GoodRange(es, ranges[l], context);
      }
    }
  }

  /** Between two hunks nothing changes. */
  lemma QuietGap(es: seq<Edit>, ranges: seq<Range>, context: nat, k: nat)
    requires RangesOf(es, ranges, context) && k <= |ranges|
    ensures var c := Cursor(es, ranges, context, k);
            var lo := if k < |ranges| then Lo(ranges[k], context) else |es|;
            c <= lo <= |es| && AllEq(es[c..lo])
  {
    var c := Cursor(es, ranges, context, k);
    var lo := if k < |ranges| then Lo(ranges[k], context) else |es|;
    assert c <= lo by {
      if 0 < k < |ranges| {
        assert ranges[k].from - ranges[k - 1].to > 2 * context + 1;
      }
    }
    assert lo <= |es| by {
      assert k < |ranges| ==> GoodRange(es, ranges[k], context);
    }
    forall i | c <= i < lo
      ensures es[i].Eq?
    {
      assert k > 0 ==> GoodRange(es, ranges[k - 1], context);
      Uncovered(es, ranges, context, k, i);
    }
  }

  /** HunkStep at its place in the script. */
  lemma PatchOne(es: seq<Edit>, r: Range, context: nat, c: nat, hunks: seq<Hunk>)
    requires r.from <= r.to < |es| && c <= Lo(r, context) && AllEq(es[c..Lo(r, context)])
    requires hunks != [] && hunks[0] == HunkOf(es, r, context)
    ensures var end := End(es, r, context);
            Patches(es[..c], es[c..], hunks) <==> Faithful(es, r, context) && Patches(es[..end], es[end..], hunks[1..])
  {
    hide PatchFrom, OldSide, NewSide, Render;
    var lo, end := Lo(r, context), End(es, r, context);
    assert es[..c] + es[c..lo] == es[..lo];
    assert es[..lo] + es[lo..end] == es[..end];
    assert es[c..] == es[c..lo] + (es[lo..end] + es[end..]);
    HunkStep(es[..c], es[c..lo], es[lo..end], es[end..], hunks);
  }

  lemma FaithfulCons(es: seq<Edit>, ranges: seq<Range>, context: nat)
    requires ranges != []
    ensures AllFaithful(es, ranges, context) <==> Faithful(es, ranges[0], context) && AllFaithful(es, ranges[1..], context)
  {
    assert ranges == [ranges[0]] + ranges[1..];
  }

  /** Nothing is left to patch behind the last hunk. */
  lemma PatchRest(es: seq<Edit>, c: nat)
    requires c <= |es| && AllEq(es[c..])
    ensures Patches(es[..c], es[c..], [])
  {
    QuietSides(es[c..]);
  }

  lemma {:induction false} PatchSuffix(es: seq<Edit>, ranges: seq<Range>, context: nat, hunks: seq<Hunk>, k: nat)
    requires HunksOf(es, ranges, context, hunks) && k <= |ranges|
    ensures Cursor(es, ranges, context, k) <= |es|
    ensures var c := Cursor(es, ranges, context, k);
            Patches(es[..c], es[c..], hunks[k..]) <==> AllFaithful(es, ranges[k..], context)
    decreases |ranges| - k
  {
    hide PatchFrom, OldSide, NewSide, Render, Faithful, RangesOf, Patches;
    var c := Cursor(es, ranges, context, k);
    QuietGap(es, ranges, context, k);
    if k == |ranges| {
      assert es[c..] == es[c..|es|] && hunks[k..] == [];
      PatchRest(es, c);
    } else {
      PatchSuffix(es, ranges, context, hunks, k + 1);
      RangeInside(es, ranges, context, k);
      PatchOne(es, ranges[k], context, c, hunks[k..]);
      FaithfulCons(es, ranges[k..], context);
      assert hunks[k..][1..] == hunks[k + 1..] && ranges[k..][1..] == ranges[k + 1..];
    }
  }

  lemma RangeInside(es: seq<Edit>, ranges: seq<Range>, context: nat, k: nat)
    requires RangesOf(es, ranges, context) && k < |ranges|
    ensures ranges[k].from <= ranges[k].to < |es|
  {
    assert GoodRange(es, ranges[k], context);
  }

  /** With a line of context every header is true. */
  lemma ContextMakesHeadersTrue(es: seq<Edit>, ranges: seq<Range>, context: nat, k: nat)
    requires RangesOf(es, ranges, context) && k < |ranges| && context >= 1
    ensures HeaderTrue(es[..Lo(ranges[k], context)], es[Lo(ranges[k], context)..End(es, ranges[k], context)])
  {
    var r := ranges[k];
    var lo, end := Lo(r, context), End(es, r, context);
    assert GoodRange(es, r, context);
    if lo > 0 {
      if k > 0 {
        assert r.from - ranges[k - 1].to > 2 * context + 1;
      }
      Uncovered(es, ranges, context, k, lo);
      assert es[lo..end][0] == es[lo];
    }
  }

  /**
    Applying the hunks to the old side gives exactly the new side if and only if every line
    shown survives the display ceiling and every empty side is printed at the top of the file.
   */
  lemma PatchExact(es: seq<Edit>, ranges: seq<Range>, context: nat, hunks: seq<Hunk>)
    requires HunksOf(es, ranges, context, hunks)
    ensures Patch(OldSide(es), hunks) == Some(NewSide(es)) <==> AllFaithful(es, ranges, context)
  {
    PatchSuffix(es, ranges, context, hunks, 0);
    assert es[0..] == es && es[..0] == [] && hunks[0..] == hunks && ranges[0..] == ranges;
  }

  /** No line that the hunk shows is cut for display. */
  ghost predicate ShowsWhole(es: seq<Edit>, r: Range, context: nat)
    requires r.to < |es|
  {
    forall i :: Lo(r, context) <= i < End(es, r, context) ==> Lossless(es[i].text)
  }

  ghost predicate ShowsWholeLines(es: seq<Edit>, ranges: seq<Range>, context: nat)
    requires RangesOf(es, ranges, context)
  {
    forall k :: 0 <= k < |ranges| ==> GoodRange(es, ranges[k], context) && ShowsWhole(es, ranges[k], context)
  }

  /** The default case: with context, only an over-long line can spoil the patch. */
  lemma PatchWithContext(es: seq<Edit>, ranges: seq<Range>, context: nat, hunks: seq<Hunk>)
    requires HunksOf(es, ranges, context, hunks) && context >= 1
    ensures Patch(OldSide(es), hunks) == Some(NewSide(es)) <==> ShowsWholeLines(es, ranges, context)
  {
    PatchExact(es, ranges, context, hunks);
    hide Patch, OldSide, NewSide, Lossless, Covered, Faithful;
    forall k | 0 <= k < |ranges|
      ensures Faithful(es, ranges[k], context) <==> ShowsWhole(es, ranges[k], context)
    {
      RangeInside(es, ranges, context, k);
      ContextMakesHeadersTrue(es, ranges, context, k);
      FaithfulIffWhole(es, ranges[k], context);
    }
  }

  /** Around its changes a hunk shows `context` unchanged lines on either side, fewer only at the ends of the file. */
  lemma HunkShowsContext(es: seq<Edit>, ranges: seq<Range>, context: nat, hunks: seq<Hunk>, k: nat)
    requires HunksOf(es, ranges, context, hunks) && k < |hunks|
    ensures ranges[k].to < |es|
    ensures var r := ranges[k];
            var before, after := if r.from < context then r.from else context, if |es| - 1 - r.to < context then |es| - 1 - r.to else context;
            && hunks[k].lines == Render(es[r.from - before..r.to + 1 + after])
            && AllEq(es[r.from - before..r.from]) && AllEq(es[r.to + 1..r.to + 1 + after])
  {
    assert hunks[k] == HunkOf(es, ranges[k], context);
    hide HunksOf, Render, OldSide, NewSide, AllEq;
    RangeInside(es, ranges, context, k);
    QuietBefore(es, ranges, context, k);
    QuietBehind(es, ranges, context, k);
    hide RangesOf;
  }

  lemma QuietBefore(es: seq<Edit>, ranges: seq<Range>, context: nat, k: nat)
    requires RangesOf(es, ranges, context) && k < |ranges|
    ensures ranges[k].to < |es| && Lo(ranges[k], context) <= ranges[k].from <= ranges[k].to
    ensures AllEq(es[Lo(ranges[k], context)..ranges[k].from])
  {
    var r := ranges[k];
    RangeInside(es, ranges, context, k);
    forall i | Lo(r, context) <= i < r.from ensures es[i].Eq? {
      if k > 0 {
        assert r.from - ranges[k - 1].to > 2 * context + 1;
      }
      Uncovered(es, ranges, context, k, i);
    }
  }

  lemma QuietBehind(es: seq<Edit>, ranges: seq<Range>, context: nat, k: nat)
    requires RangesOf(es, ranges, context) && k < |ranges|
    ensures ranges[k].to + 1 <= End(es, ranges[k], context) <= |es|
    ensures AllEq(es[ranges[k].to + 1..End(es, ranges[k], context)])
  {
    var r := ranges[k];
    RangeInside(es, ranges, context, k);
    forall i | r.to < i < End(es, r, context) ensures es[i].Eq? {
      if k + 1 < |ranges| {
        assert ranges[k + 1].from - r.to > 2 * context + 1;
      }
      Uncovered(es, ranges, context, k + 1, i);
    }
  }

  lemma {:induction false} TextOnASide(es: seq<Edit>, i: nat)
    requires i < |es|
    ensures es[i].text in OldSide(es) || es[i].text in NewSide(es)
  {
    ConsSides(es[0], es[1..]);
    assert [es[0]] + es[1..] == es;
    if i > 0 {
      TextOnASide(es[1..], i - 1);
      hide OldSide, NewSide;
    }
  }

  /** What a caller can tell from the two sides: no line too long to show. */
  lemma ShortLinesPatch(es: seq<Edit>, ranges: seq<Range>, context: nat, hunks: seq<Hunk>)
    requires HunksOf(es, ranges, context, hunks) && context >= 1
    requires AllShort(OldSide(es)) && AllShort(NewSide(es))
    ensures Patch(OldSide(es), hunks) == Some(NewSide(es))
  {
    hide Patch, OldSide, NewSide, Lossless, Covered, Faithful;
    PatchWithContext(es, ranges, context, hunks);
    forall k | 0 <= k < |ranges| ensures GoodRange(es, ranges[k], context) && ShowsWhole(es, ranges[k], context) {
      RangeInside(es, ranges, context, k);
      forall i | Lo(ranges[k], context) <= i < End(es, ranges[k], context) ensures Lossless(es[i].text) {
        TextOnASide(es, i);
      }
    }
  }

  /** Every line survives the display ceiling. */
  ghost predicate AllShort(lines: seq<Line>) {
    forall line :: line in lines ==> Lossless(line)
  }

  lemma FaithfulIffWhole(es: seq<Edit>, r: Range, context: nat)
    requires r.from <= r.to < |es| && HeaderTrue(es[..Lo(r, context)], es[Lo(r, context)..End(es, r, context)])
    ensures Faithful(es, r, context) <==> ShowsWhole(es, r, context)
  {
    var lo, end := Lo(r, context), End(es, r, context);
    if AllLossless(es[lo..end]) {
      forall i | lo <= i < end
        ensures Lossless(es[i].text)
      {
        assert es[lo..end][i - lo] == es[i];
      }
    }
  }

  /** Without context an insertion below the top is printed at line 0, and the patch is refused. */
  lemma NoContextFails()
    ensures var es := [Eq("a"), Ins("b")];
            var hunks := [HunkOf(es, Range(1, 1), 0)];
            HunksOf(es, [Range(1, 1)], 0, hunks) && Patch(OldSide(es), hunks) == None
  {
    var es := [Eq("a"), Ins("b")];
    assert Covered([Range(1, 1)], 1) by {
      assert [Range(1, 1)][0].from <= 1 <= [Range(1, 1)][0].to;
    }
    assert es[1..] == [Ins("b")] && es[..1] == [Eq("a")] && es[1..2] == [Ins("b")];
    ConsSides(Eq("a"), es[1..]);
    ConsSides(Ins("b"), []);
    ConsSides(Eq("a"), []);
    assert [Eq("a")] + [] == [Eq("a")] && [Ins("b")] + [] == [Ins("b")];
  }
}
