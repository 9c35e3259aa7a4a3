/** The imperative half of hunk building and the public entry point of src/diff.ts. */
module DiffSources {
  import opened Alignment
  import opened LineDiff
  import opened Hunks
  import opened Text
  import opened Options
  import opened Sequences

  // ----- grouping ------------------------------------------------------------------------

  ghost predicate IsChange(es: seq<Edit>, i: int) {
    0 <= i < |es| && !es[i].Eq?
  }

  /** Strictly increasing positions of exactly the changes below n. */
  ghost predicate ChangesBelow(es: seq<Edit>, n: nat, at: seq<nat>) {
    && (forall k :: 0 <= k < |at| ==> at[k] < n && IsChange(es, at[k]))
    && (forall k, l :: 0 <= k < l < |at| ==> at[k] < at[l])
    && (forall i :: 0 <= i < n && IsChange(es, i) ==> i in at)
  }

  method CollectChanges(edits: seq<Edit>) returns (changedAt: seq<nat>)
    ensures ChangesBelow(edits, |edits|, changedAt)
  {
    changedAt := [];
    for i := 0 to |edits|
      invariant ChangesBelow(edits, i, changedAt)
    {
      if !edits[i].Eq? {
        changedAt := changedAt + [i];
      }
    }
  }

  lemma DenseExtends(es: seq<Edit>, from: nat, to: nat, i: nat, context: nat)
    requires GoodRange(es, Range(from, to), context)
    requires to < i <= to + 2 * context + 1 && IsChange(es, i)
    ensures GoodRange(es, Range(from, i), context)
  {
    forall p | from <= p < i
      ensures ChangeSoon(es, i, context, p)
    {
      if p < to {
        assert ChangeSoon(es, to, context, p);
        var j :| 0 <= j < |es| && p < j <= to && j <= p + 2 * context + 1 && !es[j].Eq?;
        assert p < j <= i;
      } else {
        assert p < i <= i && i <= p + 2 * context + 1 && !es[i].Eq?;
      }
    }
  }

  /** The ranges group the first k changes. */
  ghost predicate Groups(es: seq<Edit>, at: seq<nat>, k: nat, ranges: seq<Range>, context: nat) {
    && k <= |at|
    && (forall l :: 0 <= l < |ranges| ==> GoodRange(es, ranges[l], context))
    && Separated(ranges, context)
    && (forall m :: 0 <= m < k ==> Covered(ranges, at[m]))
  }

  lemma CoverGrows(ranges: seq<Range>, r: Range, r': Range, i: int)
    requires Covered(ranges + [r], i) && r.from == r'.from && r.to <= r'.to
    ensures Covered(ranges + [r'], i)
  {
    var k :| 0 <= k < |ranges + [r]| && (ranges + [r])[k].from <= i <= (ranges + [r])[k].to;
    assert (ranges + [r'])[k].from <= i <= (ranges + [r'])[k].to;
  }

  lemma CoverKept(ranges: seq<Range>, r: Range, i: int)
    requires Covered(ranges, i) || r.from <= i <= r.to
    ensures Covered(ranges + [r], i)
  {
    if Covered(ranges, i) {
      var k :| 0 <= k < |ranges| && ranges[k].from <= i <= ranges[k].to;
      assert (ranges + [r])[k].from <= i <= (ranges + [r])[k].to;
    } else {
      assert (ranges + [r])[|ranges|].from <= i <= (ranges + [r])[|ranges|].to;
    }
  }

  /** Joins the next change to the open range. */
  lemma GroupJoins(es: seq<Edit>, at: seq<nat>, k: nat, ranges: seq<Range>, r: Range, context: nat)
    requires Groups(es, at, k, ranges + [r], context) && k < |at| && IsChange(es, at[k])
    requires r.to < at[k] <= r.to + 2 * context + 1
    ensures Groups(es, at, k + 1, ranges + [Range(r.from, at[k])], context)
  {
    var old', new' := ranges + [r], ranges + [Range(r.from, at[k])];
    assert GoodRange(es, old'[|ranges|], context);
    DenseExtends(es, r.from, r.to, at[k], context);
    forall l | 0 <= l < |new'|
      ensures GoodRange(es, new'[l], context)
    {
      assert l < |ranges| ==> new'[l] == old'[l];
    }
    forall a, b | 0 <= a < b < |new'|
      ensures new'[b].from - new'[a].to > 2 * context + 1
    {
      assert old'[b].from - old'[a].to > 2 * context + 1;
    }
    forall m | 0 <= m < k + 1
      ensures Covered(new', at[m])
    {
      if m < k {
        CoverGrows(ranges, r, Range(r.from, at[k]), at[m]);
      } else {
        CoverKept(ranges, Range(r.from, at[k]), at[k]);
      }
    }
  }

  /** Opens a new range at a change that is far from the last one. */
  lemma GroupOpens(es: seq<Edit>, at: seq<nat>, k: nat, ranges: seq<Range>, context: nat)
    requires Groups(es, at, k, ranges, context) && k < |at| && IsChange(es, at[k])
    requires ranges != [] ==> at[k] > ranges[|ranges| - 1].to + 2 * context + 1
    ensures Groups(es, at, k + 1, ranges + [Range(at[k], at[k])], context)
  {
    var new' := ranges + [Range(at[k], at[k])];
    forall a, b | 0 <= a < b < |new'|
      ensures new'[b].from - new'[a].to > 2 * context + 1
    {
      if b == |ranges| && a < |ranges| - 1 {
        assert GoodRange(es, ranges[|ranges| - 1], context);
        assert ranges[|ranges| - 1].from - ranges[a].to > 2 * context + 1;
      }
    }
    forall m | 0 <= m < k + 1
      ensures Covered(new', at[m])
    {
      CoverKept(ranges, Range(at[k], at[k]), at[m]);
    }
  }

  method MergeChanges(changedAt: seq<nat>, context: nat, ghost edits: seq<Edit>) returns (ranges: seq<Range>)
    requires changedAt != [] && ChangesBelow(edits, |edits|, changedAt)
    ensures RangesOf(edits, ranges, context)
  {
    ranges := [];
    var from: nat, to: nat := changedAt[0], changedAt[0];
    GroupOpens(edits, changedAt, 0, [], context);
    assert [] + [Range(from, to)] == [Range(from, to)];
    for k := 1 to |changedAt|
      invariant to == changedAt[k - 1]
      invariant Groups(edits, changedAt, k, ranges + [Range(from, to)], context)
    {
      var i := changedAt[k];
      if i - to <= context * 2 + 1 {
        GroupJoins(edits, changedAt, k, ranges, Range(from, to), context);
        to := i;
      } else {
        GroupOpens(edits, changedAt, k, ranges + [Range(from, to)], context);
        ranges := ranges + [Range(from, to)];
        from := i;
        to := i;
      }
    }
    ranges := ranges + [Range(from, to)];
    forall i | 0 <= i < |edits| && !edits[i].Eq?
      ensures Covered(ranges, i)
    {
      assert IsChange(edits, i);
      var m :| 0 <= m < |changedAt| && changedAt[m] == i;
    }
  }

  // ----- line numbers and hunk bodies --------------------------------------------------------

  lemma NextEdit(es: seq<Edit>, lo: nat, i: nat)
    requires lo <= i < |es|
    ensures |OldSide(es[lo..i + 1])| == |OldSide(es[lo..i])| + (if es[i].Ins? then 0 else 1)
    ensures |NewSide(es[lo..i + 1])| == |NewSide(es[lo..i])| + (if es[i].Del? then 0 else 1)
  {
    assert es[lo..i + 1] == es[lo..i] + [es[i]];
    SidesConcat(es[lo..i], [es[i]]);
    ConsSides(es[i], []);
    assert [es[i]] + [] == [es[i]];
  }

  /** Both arrays hold the 1-based line number at which each edit stands on its side. */
  ghost predicate Numbered(es: seq<Edit>, oldNo: array<nat>, newNo: array<nat>, n: nat)
    reads oldNo, newNo
  {
    && n <= oldNo.Length == newNo.Length == |es|
    && (forall i :: 0 <= i < n ==> oldNo[i] == |OldSide(es[..i])| + 1)
    && (forall i :: 0 <= i < n ==> newNo[i] == |NewSide(es[..i])| + 1)
  }

  method NumberLines(edits: seq<Edit>) returns (oldNo: array<nat>, newNo: array<nat>)
    ensures fresh(oldNo) && fresh(newNo) && Numbered(edits, oldNo, newNo, |edits|)
  {
    oldNo := new nat[|edits|](_ => 0);
    newNo := new nat[|edits|](_ => 0);
    var o, n := 1, 1;
    for i := 0 to |edits|
      invariant o == |OldSide(edits[..i])| + 1 && n == |NewSide(edits[..i])| + 1
      invariant Numbered(edits, oldNo, newNo, i)
    {
      oldNo[i] := o;
      newNo[i] := n;
      NextEdit(edits, 0, i);
      assert edits[0..i + 1] == edits[..i + 1] && edits[0..i] == edits[..i];
      if !edits[i].Ins? {
        o := o + 1;
      }
      if !edits[i].Del? {
        n := n + 1;
      }
    }
  }

  method RenderBody(edits: seq<Edit>, lo: nat, end: nat) returns (lines: seq<string>, oldCount: nat, newCount: nat)
    requires lo <= end <= |edits|
    ensures lines == Render(edits[lo..end])
    ensures oldCount == |OldSide(edits[lo..end])| && newCount == |NewSide(edits[lo..end])|
  {
    lines, oldCount, newCount := [], 0, 0;
    for i := lo to end
      invariant lines == Render(edits[lo..i])
      invariant oldCount == |OldSide(edits[lo..i])| && newCount == |NewSide(edits[lo..i])|
    {
      var e := edits[i];
      lines := lines + [RenderLine(e)];
      assert edits[lo..i + 1] == edits[lo..i] + [e];
      NextEdit(edits, lo, i);
      if !e.Ins? {
        oldCount := oldCount + 1;
      }
      if !e.Del? {
        newCount := newCount + 1;
      }
    }
  }

  method BuildHunk(edits: seq<Edit>, range: Range, context: nat, oldNo: array<nat>, newNo: array<nat>) returns (hunk: Hunk)
    requires range.from <= range.to < |edits| && Numbered(edits, oldNo, newNo, |edits|)
    ensures hunk == HunkOf(edits, range, context)
  {
    hide OldSide, NewSide, Render;
    var lo := if range.from < context then 0 else range.from - context;
    var end := if |edits| - 1 <= range.to + context then |edits| else range.to + context + 1;
    var lines, oldCount, newCount := RenderBody(edits, lo, end);
    hunk := Hunk(if oldCount == 0 then 0 else oldNo[lo], oldCount, if newCount == 0 then 0 else newNo[lo], newCount, lines);
  }

  method BuildHunks(edits: seq<Edit>, groups: seq<Range>, context: nat) returns (hunks: seq<Hunk>)
    requires RangesOf(edits, groups, context)
    ensures HunksOf(edits, groups, context, hunks)
  {
    hide HunkOf, OldSide, NewSide, Covered;
    hunks := [];
    var oldNo, newNo := NumberLines(edits);
    for k := 0 to |groups|
      invariant Numbered(edits, oldNo, newNo, |edits|)
      invariant |hunks| == k
      invariant forall l :: 0 <= l < k ==> hunks[l] == HunkOf(edits, groups[l], context)
    {
      RangeInside(edits, groups, context, k);
      var hunk := BuildHunk(edits, groups[k], context, oldNo, newNo);
      hunks := hunks + [hunk];
    }
  }

  /** Without changes there are no ranges and no hunks. */
  lemma NothingToShow(es: seq<Edit>, context: nat)
    requires ChangesBelow(es, |es|, [])
    ensures RangesOf(es, [], context) && HunksOf(es, [], context, [])
  {
    forall i | 0 <= i < |es| ensures es[i].Eq? {
      assert !IsChange(es, i);
    }
  }

  /** The hunks of an edit script, with the change ranges they stand for. */
  method ToHunks(edits: seq<Edit>, context: nat) returns (hunks: seq<Hunk>, ghost ranges: seq<Range>)
    ensures HunksOf(edits, ranges, context, hunks)
    ensures Patch(OldSide(edits), hunks) == Some(NewSide(edits)) <==> AllFaithful(edits, ranges, context)
    ensures context >= 1 ==> (AllFaithful(edits, ranges, context) <==> ShowsWholeLines(edits, ranges, context))
  {
    var changedAt := CollectChanges(edits);
    if changedAt == [] {
      hunks := [];
      ranges := [];
      NothingToShow(edits, context);
    } else {
      var groups := MergeChanges(changedAt, context, edits);
      hunks := BuildHunks(edits, groups, context);
      ranges := groups;
    }
    PatchExact(edits, ranges, context, hunks);
    if context >= 1 {
      PatchWithContext(edits, ranges, context, hunks);
    }
  }

  // ----- source text to lines ----------------------------------------------------------------

  /** Carriage returns, with or without a newline behind them, read as newlines. */
  function Normalise(source: string): (r: string)
    ensures '\r' !in r
  {
    if source == "" then ""
    else if source[0] == '\r' then "\n" + Normalise(source[if |source| > 1 && source[1] == '\n' then 2 else 1..])
    else [source[0]] + Normalise(source[1..])
  }

  function SplitSourceLines(source: string): (lines: seq<Line>)
    ensures AllLines(lines)
  {
    var normalised := Normalise(source);
    if normalised == "" then []
    else
      var lines := Split(normalised);
      if lines[|lines| - 1] == "" then lines[..|lines| - 1] else lines
  }

  /** The normalised text with its last line terminated. */
  function Terminated(source: string): string {
    var s := Normalise(source);
    if s == "" || s[|s| - 1] == '\n' then s else s + "\n"
  }

  lemma {:induction false} JoinEndsWith(lines: seq<string>)
    requires lines != [] && AllLines(lines)
    ensures Join(lines) != "" && Join(lines)[|Join(lines)| - 1] == '\n' <==> |lines| > 1 && lines[|lines| - 1] == ""
    ensures lines[|lines| - 1] == "" && |lines| > 1 ==> Join(lines) == Join(lines[..|lines| - 1]) + "\n"
  {
    if |lines| == 1 {
      assert Join(lines) == lines[0];
      assert lines[0] != "" ==> lines[0][|lines[0]| - 1] in lines[0];
    } else {
      var rest := lines[1..];
      JoinEndsWith(rest);
      if |rest| > 1 {
        assert lines[..|lines| - 1][1..] == rest[..|rest| - 1];
      } else {
        assert lines[..|lines| - 1] == [lines[0]];
        assert rest[0] != "" ==> rest[0][|rest[0]| - 1] in rest[0];
      }
    }
  }

  /** The diff's view of a source is its normalised text up to one final newline, and nothing less. */
  lemma SourceLinesAre(source: string)
    ensures Unlines(SplitSourceLines(source)) == Terminated(source)
  {
    var s := Normalise(source);
    if s != "" {
      var lines := Split(s);
      JoinSplit(s);
      JoinEndsWith(lines);
      UnlinesIsJoin(lines);
      UnlinesIsJoin(lines[..|lines| - 1]);
    }
  }

  // ----- which lines a text is read as ----------------------------------------------------------

  datatype Ending = Lf | CrLf | Cr

  /** A line as it stands in a file, with the line ending behind it. */
  datatype FileLine = FileLine(text: string, ending: Ending) {
    predicate Valid() {
      '\n' !in text && '\r' !in text
    }
  }

  function EndingText(ending: Ending): string {
    match ending
    case Lf => "\n"
    case CrLf => "\r\n"
    case Cr => "\r"
  }

  function FileText(lines: seq<FileLine>): string {
    if lines == [] then "" else lines[0].text + EndingText(lines[0].ending) + FileText(lines[1..])
  }

  function LineTexts(lines: seq<FileLine>): (r: seq<string>)
    ensures |r| == |lines| && forall i :: 0 <= i < |r| ==> r[i] == lines[i].text
  {
    seq(|lines|, i requires 0 <= i < |lines| => lines[i].text)
  }

  /** No bare carriage return stands right before a newline: the two would read as one line ending. */
  ghost predicate Readable(lines: seq<FileLine>) {
    && (forall i :: 0 <= i < |lines| ==> lines[i].Valid())
    && (forall i :: 0 <= i < |lines| - 1 ==> lines[i].ending.Cr? && lines[i + 1].text == "" ==> !lines[i + 1].ending.Lf?)
  }

  lemma {:induction false} NormaliseText(text: string, rest: string)
    requires '\r' !in text
    ensures Normalise(text + rest) == text + Normalise(rest)
  {
    if text == "" {
      assert text + rest == rest;
    } else {
      NormaliseText(text[1..], rest);
      assert text[0] in text && (text + rest)[1..] == text[1..] + rest;
      assert [text[0]] + (text[1..] + Normalise(rest)) == text + Normalise(rest);
    }
  }

  lemma NormaliseEnding(ending: Ending, rest: string)
    requires ending.Cr? ==> rest == "" || rest[0] != '\n'
    ensures Normalise(EndingText(ending) + rest) == "\n" + Normalise(rest)
  {
    var s := EndingText(ending) + rest;
    match ending
    case CrLf => assert s[2..] == rest;
    case _ => assert s[1..] == rest;
  }

  lemma StartsALine(lines: seq<FileLine>, last: string)
    requires Readable(lines) && '\n' !in last
    requires lines != [] && lines[0].text == "" ==> !lines[0].ending.Lf?
    ensures var s := FileText(lines) + last; s == "" || s[0] != '\n'
  {
    var s := FileText(lines) + last;
    if s != "" {
      if lines == [] {
        assert s == last && s[0] in last;
      } else if lines[0].text != "" {
        assert s[0] == lines[0].text[0] && s[0] in lines[0].text && lines[0].Valid();
      } else {
        assert s[0] == EndingText(lines[0].ending)[0];
      }
    }
  }

  lemma {:induction false} NormaliseFile(lines: seq<FileLine>, last: string)
    requires Readable(lines) && '\n' !in last && '\r' !in last
    ensures Normalise(FileText(lines) + last) == Unlines(LineTexts(lines)) + last
  {
    if lines == [] {
      NormaliseText(last, "");
      assert last + "" == last && FileText(lines) + last == last && Unlines(LineTexts(lines)) + last == last;
    } else {
      var line, rest := lines[0], lines[1..];
      assert line.Valid() && Readable(rest);
      assert rest != [] ==> rest[0] == lines[1];
      NormaliseFile(rest, last);
      if line.ending.Cr? {
        StartsALine(rest, last);
      }
      hide Readable, Normalise;
      assert FileText(lines) == line.text + EndingText(line.ending) + FileText(rest);
      assert LineTexts(lines)[1..] == LineTexts(rest);
      assert Unlines(LineTexts(lines)) == line.text + "\n" + Unlines(LineTexts(rest));
      hide FileText, Unlines, LineTexts, EndingText;
      NormaliseLine(line, FileText(rest) + last);
      Assoc(line.text + EndingText(line.ending), FileText(rest), last);
      Assoc(line.text + "\n", Unlines(LineTexts(rest)), last);
    }
  }

  lemma NormaliseLine(line: FileLine, tail: string)
    requires line.Valid() && (line.ending.Cr? ==> tail == "" || tail[0] != '\n')
    ensures Normalise(line.text + EndingText(line.ending) + tail) == line.text + "\n" + Normalise(tail)
  {
    hide Normalise, EndingText;
    NormaliseText(line.text, EndingText(line.ending) + tail);
    NormaliseEnding(line.ending, tail);
    Assoc(line.text, EndingText(line.ending), tail);
    Assoc(line.text, "\n", Normalise(tail));
  }

  /**
    A source reads as exactly the lines it was written as, whatever their endings, and as one more if
    something stands behind the last ending.
   */
  lemma LinesOfFile(lines: seq<FileLine>, last: string)
    requires Readable(lines) && '\n' !in last && '\r' !in last
    ensures SplitSourceLines(FileText(lines) + last) == LineTexts(lines) + if last == "" then [] else [last]
  {
    NormaliseFile(lines, last);
    var texts := LineTexts(lines);
    forall i | 0 <= i < |texts| ensures NoNewline(texts[i]) {
      assert lines[i].Valid();
    }
    SplitUnlines(texts, last);
    hide Normalise, Split, FileText, Readable;
    if lines == [] {
      assert texts == [] && Unlines(texts) + last == last;
    }
    assert (texts + [last])[..|texts|] == texts;
    assert texts + [] == texts;
  }

  /** Files that differ in nothing but their line endings are the same to the diff. */
  lemma EndingsDoNotShow(a: seq<FileLine>, b: seq<FileLine>, last: string)
    requires Readable(a) && Readable(b) && LineTexts(a) == LineTexts(b) && '\n' !in last && '\r' !in last
    ensures SplitSourceLines(FileText(a) + last) == SplitSourceLines(FileText(b) + last)
  {
    LinesOfFile(a, last);
    LinesOfFile(b, last);
  }

  /** Nor does it matter whether the last line is ended at all. */
  lemma LastEndingDoesNotShow(lines: seq<FileLine>, last: FileLine)
    requires Readable(lines + [last]) && last.text != ""
    ensures SplitSourceLines(FileText(lines + [last])) == SplitSourceLines(FileText(lines) + last.text)
  {
    var all := lines + [last];
    assert all[|lines|].Valid();
    assert Readable(lines) by {
      assert forall i :: 0 <= i < |lines| ==> lines[i] == all[i];
    }
    LinesOfFile(all, "");
    LinesOfFile(lines, last.text);
    hide Readable, FileText, SplitSourceLines;
    assert FileText(all) + "" == FileText(all);
    assert LineTexts(all) + [] == LineTexts(all) == LineTexts(lines) + [last.text];
  }

  // ----- the entry point ------------------------------------------------------------------------

  datatype DiffResult = DiffResult(
    hunks: seq<Hunk>, added: nat, removed: nat, identical: bool, coarse: bool, droppedHunks: nat, totalHunks: nat)

  function Added(es: seq<Edit>): nat {
    if es == [] then 0 else (if es[0].Ins? then 1 else 0) + Added(es[1..])
  }

  function Removed(es: seq<Edit>): nat {
    if es == [] then 0 else (if es[0].Del? then 1 else 0) + Removed(es[1..])
  }

  lemma {:induction false} CountsAddUp(es: seq<Edit>)
    ensures Added(es) + Removed(es) == ChangeCount(es)
    ensures |OldSide(es)| == EqCount(es) + Removed(es) && |NewSide(es)| == EqCount(es) + Added(es)
  {
    if es != [] {
      CountsAddUp(es[1..]);
    }
  }

  lemma {:induction false} NoChanges(es: seq<Edit>)
    requires ChangeCount(es) == 0
    ensures OldSide(es) == NewSide(es)
  {
    if es != [] {
      NoChanges(es[1..]);
    }
  }

  lemma SameSidesTrimToNothing(a: seq<Line>, start: nat, end: nat)
    requires Trims(a, a, start, end)
    ensures Cells(a, a, start, end) == 0
  {
    assert start == |a|;
  }

  method CountChanges(edits: seq<Edit>) returns (added: nat, removed: nat)
    ensures added == Added(edits) && removed == Removed(edits)
  {
    added, removed := 0, 0;
    for i := 0 to |edits|
      invariant added + Added(edits[i..]) == Added(edits)
      invariant removed + Removed(edits[i..]) == Removed(edits)
    {
      assert edits[i..][1..] == edits[i + 1..];
      match edits[i]
      case Ins(_) => added := added + 1;
      case Del(_) => removed := removed + 1;
      case Eq(_) =>
    }
  }

  /** Withholds what exceeds the caller's ceiling; a negative or missing one withholds nothing. */
  method KeepHunks(all: seq<Hunk>, maxHunks: Option<int>) returns (kept: seq<Hunk>)
    ensures kept <= all
    ensures |kept| == if maxHunks.Some? && 0 <= maxHunks.value < |all| then maxHunks.value else |all|
  {
    var ceiling := if maxHunks.Some? && maxHunks.value >= 0 then maxHunks.value else |all|;
    kept := [];
    while |kept| < |all| && |kept| < ceiling
      invariant kept <= all && |kept| <= ceiling
    {
      kept := kept + [all[|kept|]];
    }
  }

  /** Two equal line lists trim to nothing, so they are never diffed coarsely. */
  lemma IdenticalIff(es: seq<Edit>, coarse: bool, a: seq<Line>, b: seq<Line>)
    requires IsScript(es, a, b)
    requires exists start, end :: Trims(a, b, start, end) && (coarse <==> Cells(a, b, start, end) > MAX_DIFF_CELLS)
    requires !coarse ==> EqCount(es) == Lcs(a, b)
    ensures ChangeCount(es) == 0 <==> a == b
  {
    if ChangeCount(es) == 0 {
      NoChanges(es);
    }
    if a == b {
      var start, end :| Trims(a, b, start, end) && (coarse <==> Cells(a, b, start, end) > MAX_DIFF_CELLS);
      SameSidesTrimToNothing(a, start, end);
      LcsOfSame(a);
      ScriptSize(es);
    }
  }

  /**
    Diffs two sources line by line. The sources are identical for the diff exactly when their
    normalised texts agree up to a final newline; an exact diff adds and removes as few lines
    as possible; and the complete hunk list patches the old lines into the new ones exactly
    when nothing it shows was cut.
   */
  method DiffSources(oldSource: string, newSource: string, context: nat, maxHunks: Option<int>)
    returns (result: DiffResult, ghost edits: seq<Edit>, ghost ranges: seq<Range>, ghost all: seq<Hunk>)
    ensures IsScript(edits, SplitSourceLines(oldSource), SplitSourceLines(newSource))
    ensures result.added == Added(edits) && result.removed == Removed(edits)
    ensures result.identical <==> SplitSourceLines(oldSource) == SplitSourceLines(newSource)
    ensures result.identical <==> Terminated(oldSource) == Terminated(newSource)
    ensures result.identical <==> result.added == result.removed == 0
    ensures !result.coarse ==>
              forall fs :: IsScript(fs, SplitSourceLines(oldSource), SplitSourceLines(newSource))
                           ==> result.added + result.removed <= ChangeCount(fs)
    ensures exists start, end :: Trims(SplitSourceLines(oldSource), SplitSourceLines(newSource), start, end)
              && (result.coarse <==> Cells(SplitSourceLines(oldSource), SplitSourceLines(newSource), start, end) > MAX_DIFF_CELLS)
    ensures HunksOf(edits, ranges, context, all)
    ensures result.hunks <= all && result.totalHunks == |all| == |result.hunks| + result.droppedHunks
    ensures result.droppedHunks > 0 <==> maxHunks.Some? && 0 <= maxHunks.value < |all|
    ensures context >= 1 && result.droppedHunks == 0 ==>
              (Patch(SplitSourceLines(oldSource), result.hunks) == Some(SplitSourceLines(newSource))
               <==> ShowsWholeLines(edits, ranges, context))
    ensures context >= 1 && result.droppedHunks == 0
            && AllShort(SplitSourceLines(oldSource)) && AllShort(SplitSourceLines(newSource)) ==>
              Patch(SplitSourceLines(oldSource), result.hunks) == Some(SplitSourceLines(newSource))
  {
    hide AllShort;
    hide Added, Removed, OldSide, NewSide, Trims, Cells, HunksOf, RangesOf, Patch, Terminated, SplitSourceLines, ShowsWholeLines, AllFaithful;
    var oldLines := SplitSourceLines(oldSource);
    var newLines := SplitSourceLines(newSource);
    var es, coarse := ComputeEditScript(oldLines, newLines);
    edits := es;
    var added, removed := CountChanges(es);
    var hunks;
    hunks, ranges := ToHunks(es, context);
    all := hunks;
    var kept := KeepHunks(hunks, maxHunks);
    assert |kept| == |hunks| ==> kept == hunks;
    if context >= 1 && AllShort(oldLines) && AllShort(newLines) {
      ShortLinesPatch(es, ranges, context, hunks);
    }
    result := DiffResult(kept, added, removed, added == 0 && removed == 0, coarse, |hunks| - |kept|, |hunks|);

    CountsAddUp(es);
    IdenticalIff(es, coarse, oldLines, newLines);
    SameLinesIff(oldSource, newSource);
  }

  lemma SameLinesIff(a: string, b: string)
    ensures SplitSourceLines(a) == SplitSourceLines(b) <==> Terminated(a) == Terminated(b)
  {
    SourceLinesAre(a);
    SourceLinesAre(b);
    if Terminated(a) == Terminated(b) {
      UnlinesInjective(SplitSourceLines(a), SplitSourceLines(b));
    }
  }
}
