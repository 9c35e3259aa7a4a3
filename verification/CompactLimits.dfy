/** Truncated responses that do not fit before the clamp, though there is room for their overhead. */
module CompactLimits {
  import opened Options
  import opened Decimals
  import opened Text
  import opened Compact
  import Canonical

  /** Twenty lower-case letters. */
  predicate IsPageLine(line: string) {
    |line| == 20 && forall i :: 0 <= i < |line| ==> 'a' <= line[i] <= 'z'
  }

  function PageText(line: string): string {
    Join([line, line, line])
  }

  /** A page of three such lines. */
  function Page(line: string, offset: nat, total: nat, maxChars: nat, marker: Option<nat -> string>): Parts {
    Parts([], [], [], PageText(line), "BODY", offset, Some(total), [], Some("offset"), maxChars, marker)
  }

  lemma EndsInLetter(s: string)
    ensures s != "" && 'a' <= s[|s| - 1] <= 'z' ==> TrimEnd(s) == s
  {
  }

  lemma PageBody(line: string)
    requires IsPageLine(line)
    ensures var body := PageText(line);
            |body| == 62 && Canonical.Crlf(body) == TrimEnd(body) == body && Split(body) == [line, line, line]
  {
    var lines := [line, line, line];
    assert AllLines(lines);
    assert lines[1..] == [line, line] && [line, line][1..] == [line];
    assert Join([line, line]) == line + "\n" + line;
    var body := Join(lines);
    assert body == line + "\n" + (line + "\n" + line);
    SplitJoin(lines);
    forall i | 0 <= i < |lines| ensures !Canonical.EndsInReturn(lines[i]) {
    }
    Canonical.CrlfInJoin(lines);
    Canonical.CrlfWithout(body);
    EndsInLetter(body);
  }

  lemma PageLength(line: string, offset: nat, total: nat, maxChars: nat, marker: Option<nat -> string>)
    requires IsPageLine(line) && total > 3
    ensures var p := Page(line, offset, total, maxChars, marker);
            |BodyLines(p)| == 3 && BodyOverhead(p) == 15 + |WorstNotice(p, None)|
            && |FullText(p)| == 77 + |Notice(p, "WINDOW", 3, None)|
  {
    var p := Page(line, offset, total, maxChars, marker);
    PageBody(line);
    EmptyIsBlank();
    assert SectionsCut(p) == None && SectionsKept(p) == "" && SectionsFull(p) == "";
    assert Join(HeaderLines(p.header)) == "" && Join(NoteLines(p.notes)) == "";
    assert |Heading("BODY")| == 13;
    hide Split, Join, TrimEnd, Notice, SectionsKept, SectionsFull, SectionsCut, Assemble, Heading, IsBlank, HeaderLines, NoteLines;
    NoticeIsSolid(p, TRUNCATED, 0, None);
    NoticeIsSolid(p, TRUNCATED, TotalLines(p), None);
    NoticeIsSolid(p, "WINDOW", 3, None);
    HeadingIsSolid("BODY", "");
    assert Heading("BODY") + "" == Heading("BODY");
    HeadingIsSolid("BODY", p.body);
    AssembleLength(p, "", Heading("BODY"), WorstNotice(p, None));
    AssembleLength(p, "", Heading("BODY") + p.body, Notice(p, "WINDOW", 3, None));
  }

  lemma ReturnedNothingLength(p: Parts)
    ensures |ReturnedLine(p, 0)| == 85 + Width(TotalLines(p)) + Width(p.maxChars) + Width(100 * p.maxChars / 314)
  {
    hide Decimal, TotalLines;
    assert |"Returned 0 of "| == 14 && |" line(s)"| == 8 && |" \U{2014} the body did not fit"| == 23;
    assert |" (response capped at "| == 21 && |" chars / ~"| == 10 && |" tokens)."| == 9;
  }

  lemma PageNotice(line: string, offset: nat, total: nat, maxChars: nat, marker: Option<nat -> string>, title: string)
    ensures var p := Page(line, offset, total, maxChars, marker);
            Remaining(p, 0) > 0 ==>
              |Notice(p, title, 0, None)| == 152 + |title| + Width(maxChars) + Width(100 * maxChars / 314)
                + Width(total) + Width(offset) + Width(Remaining(p, 0))
  {
    var p := Page(line, offset, total, maxChars, marker);
    NoticeLength(p, title, 0, None);
    NextChunkLength(p, 0);
    ReturnedNothingLength(p);
    assert |"--- "| == 4 && |" ---\n"| == 5;
    hide Notice, NextChunkLine, ReturnedLine, Decimal, Remaining, PageText;
  }

  /** Of three lines of twenty characters, a budget keeps one for every 21. */
  lemma ThreeLinesKeep(line: string, budget: nat, n: nat)
    requires NoNewline(line) && |line| == 20 && n in {1, 2} && 21 * n <= budget < 21 * (n + 1) && budget < 62
    ensures var kept := Kept(Join([line, line, line]), budget); |kept| == 21 * n - 1 && |Split(kept)| == n
  {
    var lines := [line, line, line];
    hide Split, NoNewline;
    assert lines[1..] == [line, line] && [line, line][1..] == [line];
    assert |Join([line])| == 20;
    assert |Join([line, line])| == 41;
    assert |Join(lines)| == 62;
    assert LinesWithin([line], budget - 42) == 0;
    assert LinesWithin([line, line], budget - 21) == n - 1;
    assert LinesWithin(lines, budget) == n;
    assert lines[..2] == [line, line] && lines[..1] == [line];
    hide LinesWithin;
    SplitJoin(lines);
    SplitJoin([line]);
    SplitJoin([line, line]);
  }

  const TRILLION: nat := 1_000_000_000_000

  lemma Digits()
    ensures forall n {:trigger Width(n)} :: n < 10 ==> Width(n) == 1
    ensures Width(65) == Width(79) == 2 && Width(206) == Width(249) == 3
    ensures Width(TRILLION - 1) == 12
    ensures forall n {:trigger Width(n)} :: TRILLION <= n < 10 * TRILLION ==> Width(n) == 13
  {
    assert Pow10(13) == 10 * Pow10(12) && Pow10(12) == 1_000_000_000_000 && Pow10(11) == 100_000_000_000;
    hide Pow10;
    WidthAtMost(TRILLION - 1, 12);
    WidthAtLeast(TRILLION - 1, 11);
    forall n | TRILLION <= n < 10 * TRILLION ensures Width(n) == 13 {
      WidthAtMost(n, 13);
      WidthAtLeast(n, 12);
    }
    assert |Decimal(20)| == 2 && |Decimal(24)| == 2 && |Decimal(6)| == 1 && |Decimal(7)| == 1;
  }

  lemma PageGrowth(line: string, offset: nat, total: nat, maxChars: nat, marker: Option<nat -> string>, kept: nat)
    requires kept > 0 && offset >= 1 && total > offset - 1
    ensures var p, left := Page(line, offset, total, maxChars, marker), total - (offset - 1);
            Growth(p, kept) == if left <= kept then Width(offset + kept - 1) - 56 - Width(left)
                               else Width(offset + kept - 1) + Width(offset + kept) - 24 + Width(left - kept) - Width(left)
  {
    hide Decimal;
    assert |"offset"| == 6;
  }

  /** The numbers of a page, as digits of its numbers. */
  lemma PageFigures(line: string, offset: nat, total: nat, maxChars: nat, marker: Option<nat -> string>)
    requires IsPageLine(line) && offset >= 1 && total > offset + 2
    ensures var p, left := Page(line, offset, total, maxChars, marker), total - (offset - 1);
            var none := 143 + Width(maxChars) + Width(100 * maxChars / 314) + Width(total) + Width(offset) + Width(left);
            && BodyOverhead(p) == 15 + none + 18 + Reserve(p)
            && |FullText(p)| == 77 + none + 15 + Growth(p, 3)
            && |BodyLines(p)| == 3 && Remaining(p, 0) == left
  {
    hide FullText, Notice, BodyLines, BodyOverhead, Growth, Width, Heading, PageText, WorstNotice, Reserve;
    var p := Page(line, offset, total, maxChars, marker);
    PageLength(line, offset, total, maxChars, marker);
    PageNotice(line, offset, total, maxChars, marker, TRUNCATED);
    PageNotice(line, offset, total, maxChars, marker, "WINDOW");
    NoticeGrows(p, "WINDOW", 3, None);
    NoticeFitsIff(p, 0, None);
  }

  lemma PageKept(line: string, p: Parts, budget: nat, n: nat)
    requires IsPageLine(line) && p.body == PageText(line) && budget == p.maxChars - BodyOverhead(p) - WorstMarkerLength(p)
    requires n in {1, 2} && 21 * n <= budget < 21 * (n + 1) && budget < 62
    ensures |BodyKept(p)| == 21 * n - 1 && KeptCount(p) == n
  {
    hide BodyOverhead, WorstMarkerLength, Kept, Split, TrimEnd, Canonical.Crlf, Join;
    PageBody(line);
    ThreeLinesKeep(line, budget, n);
  }

  /** Nothing but the digits of its numbers decides whether a page that keeps some lines fits. */
  lemma PageOverflows(line: string, p: Parts, n: nat)
    requires IsPageLine(line) && p.body == PageText(line) && n in {1, 2} && Reserve(p) == 0
    requires 21 * n <= p.maxChars - BodyOverhead(p) - WorstMarkerLength(p) < if n == 1 then 42 else 62
    requires 21 * n - 1 + |MarkerText(p)| + Growth(p, n) > p.maxChars - BodyOverhead(p)
    ensures KeptCount(p) == n && |Draft(p)| > p.maxChars
  {
    hide BodyOverhead, Growth, Draft, BodyKept, KeptCount, Reserve, Heading, PageText, MarkerText, WorstMarkerLength;
    PageKept(line, p, p.maxChars - BodyOverhead(p) - WorstMarkerLength(p), n);
    DraftLength(p);
  }

  /** Two lines are kept around line 10^12 of a listing. */
  function LongListing(line: string): Parts {
    Page(line, TRILLION - 1, TRILLION + 6, 249, None)
  }

  lemma LongListingFigures(line: string)
    requires IsPageLine(line)
    ensures var p := LongListing(line);
            && BodyOverhead(p) == 207 && |FullText(p)| == 268 && Growth(p, 2) == 2 && Reserve(p) == 0
            && MarkerText(p) == "" && WorstMarkerLength(p) == 0
  {
    hide Width, FullText, BodyOverhead, KeptCount, BodyLines, PageText, Growth;
    Digits();
    PageFigures(line, TRILLION - 1, TRILLION + 6, 249, None);
    PageGrowth(line, TRILLION - 1, TRILLION + 6, 249, None, 2);
    PageGrowth(line, TRILLION - 1, TRILLION + 6, 249, None, 3);
    PageGrowth(line, TRILLION - 1, TRILLION + 6, 249, None, TRILLION + 6);
  }

  /**
    Without the bound on line numbers a response can fail to fit: the digits of two kept lines around
    10^12 make the notice two characters longer than its reserve, and the budget has only one left.
   */
  lemma TwelveDigitsAreTheLimit(line: string)
    requires IsPageLine(line)
    ensures var p := LongListing(line);
            BodyOverhead(p) <= p.maxChars && p.omissionMarker.None? && p.offset + KeptCount(p) > Pow10(12)
            && |FullText(p)| > p.maxChars && |Draft(p)| > p.maxChars
  {
    assert Pow10(12) == TRILLION;
    hide FullText, BodyOverhead, Growth, Draft, KeptCount, Reserve, PageText, MarkerText, WorstMarkerLength, Pow10;
    LongListingFigures(line);
    PageOverflows(line, LongListing(line), 2);
  }

  /** A marker longer than those for none and for all lines omitted. */
  function LongForTwo(n: nat): string {
    if n == 2 then seq(60, i => '.') else ""
  }

  function LongMarker(line: string): Parts {
    Page(line, 1, 9, 206, Some(LongForTwo))
  }

  lemma LongMarkerFigures(line: string)
    requires IsPageLine(line)
    ensures var p := LongMarker(line);
            && BodyOverhead(p) == 184 && |FullText(p)| == 221 && Growth(p, 1) == -22 && Reserve(p) == 0
            && (KeptCount(p) == 1 ==> |MarkerText(p)| == 61) && WorstMarkerLength(p) == 1
  {
    hide Width, FullText, BodyOverhead, KeptCount, BodyLines, PageText, Growth;
    Digits();
    PageFigures(line, 1, 9, 206, Some(LongForTwo));
    PageGrowth(line, 1, 9, 206, Some(LongForTwo), 1);
    PageGrowth(line, 1, 9, 206, Some(LongForTwo), 3);
    PageGrowth(line, 1, 9, 206, Some(LongForTwo), 9);
  }

  /** Without the bound on markers a response can fail to fit as well. */
  lemma MarkersMustBeWithinEnds(line: string)
    requires IsPageLine(line)
    ensures var p := LongMarker(line);
            BodyOverhead(p) <= p.maxChars && p.offset + KeptCount(p) < Pow10(12) && !MarkersWithinEnds(p)
            && |FullText(p)| > p.maxChars && |Draft(p)| > p.maxChars
  {
    assert Pow10(1) == 10 <= Pow10(12);
    hide FullText, BodyOverhead, Growth, Draft, KeptCount, Reserve, PageText, MarkerText, WorstMarkerLength, Pow10, MarkersWithinEnds;
    LongMarkerFigures(line);
    PageKept(line, LongMarker(line), 21, 1);
    PageOverflows(line, LongMarker(line), 1);
    if MarkersWithinEnds(LongMarker(line)) {
      MarkerFits(LongMarker(line));
    }
  }
}
