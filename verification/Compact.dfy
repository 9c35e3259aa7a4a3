/** The response budget of src/compact.ts: what fits under the cap, and what the notice says about the rest. */
module Compact {
  import opened Options
  import opened Decimals
  import opened Sequences
  import opened Text
  import Canonical

  // ----- keeping whole lines -----------------------------------------------------------------------------

  /** How many lines fit, each charged with its line break. */
  function LinesWithin(lines: seq<string>, budget: int): (n: nat)
    ensures n <= |lines|
    decreases |lines|
  {
    if lines == [] || budget < |lines[0]| + 1 then 0 else 1 + LinesWithin(lines[1..], budget - (|lines[0]| + 1))
  }

  function Kept(text: string, budget: int): string {
    if budget >= |text| then text
    else if budget <= 0 then ""
    else Join(Split(text)[..LinesWithin(Split(text), budget)])
  }

  method KeepLines(text: string, budget: int) returns (kept: string, cutChars: nat)
    ensures kept == Kept(text, budget) && cutChars == |text| - |kept|
  {
    KeptIsAPrefix(text, budget);
    assert |Kept(text, budget)| <= |text|;
    hide Join, Split;
    if budget >= |text| {
      return text, 0;
    }
    if budget <= 0 {
      return "", |text|;
    }
    var lines, out, left, i := Split(text), [], budget, 0;
    while i < |lines|
      invariant 0 <= i <= |lines| && out == lines[..i]
      invariant LinesWithin(lines, budget) == i + LinesWithin(lines[i..], left)
    {
      if left - (|lines[i]| + 1) < 0 {
        break;
      }
      out := out + [lines[i]];
      left := left - (|lines[i]| + 1);
      assert lines[i..][1..] == lines[i + 1..];
      i := i + 1;
    }
    kept := Join(out);
    cutChars := |text| - |kept|;
  }

  lemma {:induction false} JoinPrefix(lines: seq<string>, n: nat)
    requires n <= |lines|
    ensures Join(lines[..n]) <= Join(lines)
    ensures 0 < n < |lines| ==> Join(lines[..n]) + "\n" <= Join(lines)
  {
    if n >= 1 && |lines| > 1 {
      JoinPrefix(lines[1..], n - 1);
      assert lines[..n][1..] == lines[1..][..n - 1];
    }
  }

  lemma {:induction false} UnlinesPrefix(lines: seq<string>, budget: int)
    requires budget >= 0
    ensures var n := LinesWithin(lines, budget);
            && |Unlines(lines[..n])| <= budget
            && (n < |lines| ==> |Unlines(lines[..n + 1])| > budget)
    decreases |lines|
  {
    if lines != [] {
      assert lines[..1][1..] == [];
      var n := LinesWithin(lines, budget);
      if n > 0 {
        UnlinesPrefix(lines[1..], budget - (|lines[0]| + 1));
        assert lines[..n][1..] == lines[1..][..n - 1];
        if n < |lines| {
          assert lines[..n + 1][1..] == lines[1..][..n];
        }
      } else {
        assert lines[..0] == [];
      }
    }
  }

  /**
    What is kept is a prefix of whole lines within the budget, and one more line, charged with its
    line break, would not have fitted.
   */
  lemma KeptIsAPrefix(text: string, budget: int)
    ensures Kept(text, budget) <= text
    ensures budget >= 0 ==> |Kept(text, budget)| <= budget
    ensures 0 < budget < |text| ==>
              exists n :: 0 <= n < |Split(text)| && Kept(text, budget) == Join(Split(text)[..n])
                && |Unlines(Split(text)[..n])| <= budget < |Unlines(Split(text)[..n + 1])|
  {
    if 0 < budget < |text| {
      var lines, n := Split(text), LinesWithin(Split(text), budget);
      JoinSplit(text);
      JoinPrefix(lines, n);
      UnlinesPrefix(lines, budget);
      UnlinesIsJoin(lines[..n]);
      UnlinesIsJoin(lines);
      assert lines[..|lines|] == lines;
      assert Kept(text, budget) == Join(lines[..n]);
    }
  }

  // ----- the last-resort clamp ---------------------------------------------------------------------------

  function ClampMarker(emitted: nat, original: nat, maxChars: nat): string {
    "\n--- OUTPUT HARD-CLAMPED ---\n" + Decimal(emitted) + " of " + Decimal(original) + " characters emitted"
    + " (hard cap " + Decimal(maxChars) + "). The rest was dropped mid-text."
  }

  /** How many characters the clamp lets through. */
  function Emitted(original: nat, maxChars: nat): (e: nat)
    ensures original > maxChars ==> e <= maxChars < original
  {
    var room := maxChars - |ClampMarker(original, original, maxChars)|;
    if room > 0 then room else 0
  }

  function Clamped(text: string, maxChars: nat): string {
    if |text| <= maxChars then text
    else
      var emitted := Emitted(|text|, maxChars);
      var clamped := text[..emitted] + ClampMarker(emitted, |text|, maxChars);
      if |clamped| <= maxChars then clamped else clamped[..maxChars]
  }

  /** The marker for the whole text is the longest, so the first guess at what to emit already fits. */
  lemma FirstGuessFits(original: nat, maxChars: nat)
    requires original > maxChars && Emitted(original, maxChars) > 0
    ensures var e := Emitted(original, maxChars); e + |ClampMarker(e, original, maxChars)| <= maxChars
  {
    WiderIsLonger(Emitted(original, maxChars), original);
  }

  method HardClamp(text: string, maxChars: nat) returns (r: string)
    ensures r == Clamped(text, maxChars)
  {
    if |text| <= maxChars {
      return text;
    }
    var original := |text|;
    var room := maxChars - |ClampMarker(original, original, maxChars)|;
    var emitted := if room > 0 then room else 0;
    while emitted > 0 && emitted + |ClampMarker(emitted, original, maxChars)| > maxChars
      invariant 0 <= emitted <= Emitted(original, maxChars)
      invariant forall e :: emitted < e <= Emitted(original, maxChars) ==> e + |ClampMarker(e, original, maxChars)| > maxChars
    {
      emitted := emitted - 1;
    }
    if Emitted(original, maxChars) > 0 {
      FirstGuessFits(original, maxChars);
    }
    assert emitted == Emitted(original, maxChars);
    var clamped := text[..emitted] + ClampMarker(emitted, original, maxChars);
    r := if |clamped| <= maxChars then clamped else clamped[..maxChars];
  }

  /** Never longer than the cap; when the marker itself fits, it tells exactly how much was let through. */
  lemma ClampedFits(text: string, maxChars: nat)
    ensures |Clamped(text, maxChars)| <= maxChars
    ensures |text| <= maxChars ==> Clamped(text, maxChars) == text
    ensures |text| > maxChars && Emitted(|text|, maxChars) > 0 ==>
              var e := Emitted(|text|, maxChars);
              Clamped(text, maxChars) == text[..e] + ("\n--- OUTPUT HARD-CLAMPED ---\n" + Decimal(e) + " of " + Decimal(|text|)
                + " characters emitted" + " (hard cap " + Decimal(maxChars) + "). The rest was dropped mid-text.")
  {
    if |text| > maxChars && Emitted(|text|, maxChars) > 0 {
      FirstGuessFits(|text|, maxChars);
    }
  }

  // ----- blocks ------------------------------------------------------------------------------------------

  function Solid(blocks: seq<string>): seq<string> {
    if blocks == [] then [] else (if IsBlank(blocks[0]) then [] else [blocks[0]]) + Solid(blocks[1..])
  }

  /** blocks.join("\n\n"). */
  function JoinBlocks(blocks: seq<string>): string {
    if blocks == [] then "" else if |blocks| == 1 then blocks[0] else blocks[0] + "\n\n" + JoinBlocks(blocks[1..])
  }

  function Cost(block: string): nat {
    if IsBlank(block) then 0 else |block| + 2
  }

  function TotalCost(blocks: seq<string>): nat {
    if blocks == [] then 0 else Cost(blocks[0]) + TotalCost(blocks[1..])
  }

  lemma {:induction false} BlocksLength(blocks: seq<string>)
    ensures |JoinBlocks(Solid(blocks))| == if Solid(blocks) == [] then 0 else TotalCost(blocks) - 2
    ensures Solid(blocks) == [] <==> TotalCost(blocks) == 0
  {
    if blocks != [] {
      BlocksLength(blocks[1..]);
      var rest := Solid(blocks[1..]);
      if !IsBlank(blocks[0]) {
        assert ([blocks[0]] + rest)[1..] == rest;
      } else {
        assert [] + rest == rest;
      }
    }
  }

  // ----- a response ----------------------------------------------------------------------------------------

  datatype Section = Section(title: string, content: string)

  /** What was kept of the sections, if they had to be cut. */
  datatype Cut = Cut(keptChars: nat, totalChars: nat, keptSections: nat)

  datatype Parts = Parts(
    header: seq<(string, string)>, sections: seq<Section>, notes: seq<string>, body: string, bodyLabel: string,
    offset: nat, bodyTotalLines: Option<nat>, hints: seq<string>, pagingParam: Option<string>, maxChars: nat,
    omissionMarker: Option<nat -> string>)

  datatype Built = Built(
    text: string, truncated: bool, hasMore: bool, returnedLines: Option<nat>, totalLines: Option<nat>,
    chars: nat, sectionsTruncated: bool)

  function HeaderLines(header: seq<(string, string)>): seq<string> {
    if header == [] then []
    else (if header[0].1 == "" then [] else [header[0].0 + ": " + header[0].1]) + HeaderLines(header[1..])
  }

  function NoteLines(notes: seq<string>): seq<string> {
    if notes == [] then [] else ["NOTE: " + notes[0]] + NoteLines(notes[1..])
  }

  function SectionBlocks(sections: seq<Section>): seq<string> {
    if sections == [] then []
    else
      (if IsBlank(sections[0].content) then [] else [Heading(sections[0].title) + TrimEnd(sections[0].content)])
      + SectionBlocks(sections[1..])
  }

  function Heading(title: string): string {
    "--- " + title + " ---\n"
  }

  function BodyLines(p: Parts): seq<string> {
    if p.body == "" then [] else Split(Canonical.Crlf(p.body))
  }

  function TotalLines(p: Parts): nat {
    if p.bodyTotalLines.Some? then p.bodyTotalLines.value else |BodyLines(p)|
  }

  function Assemble(p: Parts, sections: string, body: string, notice: string): string {
    JoinBlocks(Solid([Join(HeaderLines(p.header)), Join(NoteLines(p.notes)), sections, body, notice]))
  }

  /** Lines after the window that was returned. */
  function Remaining(p: Parts, kept: nat): nat {
    var left := TotalLines(p) - (p.offset - 1) - kept;
    if left > 0 then left else 0
  }

  function PageLine(param: string, next: nat, remaining: nat): string {
    "- Fetch the next chunk with " + param + "=" + Decimal(next) + " (" + Decimal(remaining) + " line(s) not shown)."
  }

  function NotShown(remaining: string): (r: string)
    ensures |r| == 71 + |remaining|
  {
    "- " + remaining + " line(s) are not shown and this tool has NO offset/paging parameter \U{2014}"
  }

  function NarrowInstead(text: string): (r: string)
    ensures |r| == |text| + 81
  {
    text + " passing one would be rejected. Narrow the request instead (see the hints above)."
  }

  function NoPageLine(remaining: nat): string {
    NarrowInstead(NotShown(Decimal(remaining)))
  }

  function NextChunkLine(p: Parts, kept: nat): string {
    var remaining := Remaining(p, kept);
    if remaining == 0 then "- This is the last chunk."
    else if p.pagingParam.Some? && p.pagingParam.value != "" then PageLine(p.pagingParam.value, p.offset + kept, remaining)
    else NoPageLine(remaining)
  }

  /** One token stands for 3.14 characters. */
  function CapText(p: Parts): string {
    " (response capped at " + Decimal(p.maxChars) + " chars / ~" + Decimal(100 * p.maxChars / 314) + " tokens)."
  }

  function ShownLine(p: Parts, kept: nat): string {
    if kept > 0 then "Returned lines " + Decimal(p.offset) + ".." + Decimal(p.offset + kept - 1) + " of " + Decimal(TotalLines(p))
    else "Returned 0 of " + Decimal(TotalLines(p)) + " line(s)"
  }

  function ReturnedLine(p: Parts, kept: nat): string {
    if kept > 0 then ShownLine(p, kept) + CapText(p) else ShownLine(p, kept) + (" \U{2014} the body did not fit" + CapText(p))
  }

  function CutText(kept: nat, total: nat): string {
    "Prologue sections were ALSO cut: " + Decimal(kept) + " of " + Decimal(total) + " characters kept in "
  }

  function CutLine(p: Parts, cut: Option<Cut>): string {
    if cut.None? then ""
    else
      "\n" + CutText(cut.value.keptChars, cut.value.totalChars)
      + (Decimal(cut.value.keptSections) + " of " + Decimal(|SectionBlocks(p.sections)|) + " section(s).")
  }

  function HintLines(hints: seq<string>): string {
    if hints == [] then "" else "\n- " + hints[0] + HintLines(hints[1..])
  }

  function Notice(p: Parts, title: string, kept: nat, cut: Option<Cut>): string {
    Heading(title) + ReturnedLine(p, kept) + CutLine(p, cut) + HintLines(p.hints) + "\n" + NextChunkLine(p, kept)
  }

  const TRUNCATED := "TRUNCATED"

  function WorstNotice(p: Parts, cut: Option<Cut>): (r: string) {
    var none, all := Notice(p, TRUNCATED, 0, cut), Notice(p, TRUNCATED, TotalLines(p), cut);
    if |none| >= |all| then none else all
  }

  // ----- the budget, step by step ---------------------------------------------------------------------------

  function SectionsFull(p: Parts): string {
    JoinBlocks(SectionBlocks(p.sections))
  }

  function IsWindowed(p: Parts): bool {
    |BodyLines(p)| < TotalLines(p)
  }

  function FullText(p: Parts): string {
    Assemble(p, SectionsFull(p), if BodyLines(p) == [] then "" else Heading(p.bodyLabel) + TrimEnd(p.body),
             if IsWindowed(p) then Notice(p, "WINDOW", |BodyLines(p)|, None) else "")
  }

  function SectionsBudget(p: Parts): nat {
    var full, blocks := |SectionsFull(p)|, |SectionBlocks(p.sections)|;
    var cut := if blocks > 0 then Some(Cut(full, full, blocks)) else None;
    var left := p.maxChars - |Assemble(p, "", Heading(p.bodyLabel), WorstNotice(p, cut))|;
    var budget := if left > 0 then left else 0;
    var reserve := if |p.body| <= budget / 2 then |p.body| else budget / 2;
    budget - reserve
  }

  /** A line of the form `--- … ---`. */
  predicate IsTitle(line: string) {
    && |line| >= 8 && line[..4] == "--- " && line[|line| - 4..] == " ---"
    && forall i :: 4 <= i < |line| - 4 ==> line[i] !in {'\r', '\U{2028}', '\U{2029}'}
  }

  function CountTitles(lines: seq<string>): nat {
    if lines == [] then 0 else (if IsTitle(lines[0]) then 1 else 0) + CountTitles(lines[1..])
  }

  function SectionsKept(p: Parts): string {
    Kept(SectionsFull(p), SectionsBudget(p))
  }

  function SectionsCut(p: Parts): Option<Cut> {
    var kept := SectionsKept(p);
    if |kept| >= |SectionsFull(p)| then None
    else Some(Cut(|kept|, |SectionsFull(p)|, if kept == "" then 0 else CountTitles(Split(kept))))
  }

  function BodyOverhead(p: Parts): nat {
    |Assemble(p, SectionsKept(p), Heading(p.bodyLabel), WorstNotice(p, SectionsCut(p)))|
  }

  function WorstMarkerLength(p: Parts): nat {
    if p.omissionMarker.None? then 0
    else
      var none, all := |p.omissionMarker.value(0)|, |p.omissionMarker.value(|BodyLines(p)|)|;
      1 + if none >= all then none else all
  }

  function BodyKept(p: Parts): string {
    Kept(TrimEnd(Canonical.Crlf(p.body)), p.maxChars - BodyOverhead(p) - WorstMarkerLength(p))
  }

  function KeptCount(p: Parts): nat {
    if BodyKept(p) == "" then 0 else |Split(BodyKept(p))|
  }

  /** The line that says how many were left out, in place; the source treats an empty one as none. */
  function MarkerText(p: Parts): string {
    var omitted := |BodyLines(p)| - KeptCount(p);
    if p.omissionMarker.None? || KeptCount(p) == 0 || omitted <= 0 || p.omissionMarker.value(omitted) == "" then ""
    else "\n" + p.omissionMarker.value(omitted)
  }

  /** The truncated response before the clamp. */
  function Draft(p: Parts): string {
    Assemble(p, SectionsKept(p), if KeptCount(p) == 0 then "" else Heading(p.bodyLabel) + BodyKept(p) + MarkerText(p),
             Notice(p, TRUNCATED, KeptCount(p), SectionsCut(p)))
  }

  function Response(p: Parts): Built {
    var full := FullText(p);
    if |full| <= p.maxChars then
      Built(full, IsWindowed(p), Remaining(p, |BodyLines(p)|) > 0, NonZero(|BodyLines(p)|), NonZero(TotalLines(p)), |full|, false)
    else
      var text := Clamped(Draft(p), p.maxChars);
      Built(text, true, Remaining(p, KeptCount(p)) > 0, Some(KeptCount(p)), Some(TotalLines(p)), |text|, SectionsCut(p).Some?)
  }

  function NonZero(n: nat): Option<nat> {
    if n == 0 then None else Some(n)
  }

  method RenderResponse(p: Parts) returns (built: Built)
    ensures built == Response(p)
  {
    hide Assemble, Kept, Clamped, WorstNotice, Notice, SectionsFull, SectionsBudget, CountTitles, Split, TrimEnd, BodyLines;
    var full := FullText(p);
    if |full| <= p.maxChars {
      return Built(full, IsWindowed(p), Remaining(p, |BodyLines(p)|) > 0, NonZero(|BodyLines(p)|), NonZero(TotalLines(p)), |full|, false);
    }
    var sectionsFull := SectionsFull(p);
    var sectionsKept, sectionsCutChars := KeepLines(sectionsFull, SectionsBudget(p));
    var cut := None;
    if sectionsCutChars > 0 {
      cut := Some(Cut(|sectionsKept|, |sectionsFull|, if sectionsKept == "" then 0 else CountTitles(Split(sectionsKept))));
    }
    var overhead := |Assemble(p, sectionsKept, Heading(p.bodyLabel), WorstNotice(p, cut))|;
    var bodyKept, _ := KeepLines(TrimEnd(Canonical.Crlf(p.body)), p.maxChars - overhead - WorstMarkerLength(p));
    var keptLines := if bodyKept == "" then [] else Split(bodyKept);
    var draft := Assemble(p, sectionsKept, if keptLines == [] then "" else Heading(p.bodyLabel) + bodyKept + MarkerText(p),
                          Notice(p, TRUNCATED, |keptLines|, cut));
    var text := HardClamp(draft, p.maxChars);
    built := Built(text, true, Remaining(p, |keptLines|) > 0, Some(|keptLines|), Some(TotalLines(p)), |text|, cut.Some?);
  }

  /** Whatever the input and the cap, the emitted text is within it, and its stated length is its length. */
  lemma ResponseFits(p: Parts)
    ensures Response(p).chars == |Response(p).text| <= p.maxChars
  {
    ClampedFits(Draft(p), p.maxChars);
  }

  // ----- the reserved notice is long enough ------------------------------------------------------------------

  function Width(n: nat): nat {
    |Decimal(n)|
  }

  lemma ReturnedLength(p: Parts, kept: nat)
    requires kept > 0
    ensures |ReturnedLine(p, kept)| + 24 == |ReturnedLine(p, 0)| + Width(p.offset) + Width(p.offset + kept - 1)
  {
    hide Decimal, CapText, TotalLines;
    assert |"Returned lines "| == 15 && |"Returned 0 of "| == 14;
    assert |" line(s)"| == 8 && |" \U{2014} the body did not fit"| == 23;
  }

  /** The length of the last line of a notice, in digits. */
  function NextChunkWidth(p: Parts, kept: nat): nat {
    var remaining := Remaining(p, kept);
    if remaining == 0 then 25
    else if p.pagingParam.Some? && p.pagingParam.value != "" then
      51 + |p.pagingParam.value| + Width(p.offset + kept) + Width(remaining)
    else 152 + Width(remaining)
  }

  lemma PageLineLength(param: string, next: nat, remaining: nat)
    ensures |PageLine(param, next, remaining)| == 51 + |param| + Width(next) + Width(remaining)
  {
    hide Decimal;
    assert |"- Fetch the next chunk with "| == 28 && |" line(s) not shown)."| == 20;
  }

  lemma NoPageLineLength(remaining: nat)
    ensures |NoPageLine(remaining)| == 152 + Width(remaining)
  {
    hide Decimal, NotShown, NarrowInstead;
  }

  lemma NextChunkLength(p: Parts, kept: nat)
    ensures |NextChunkLine(p, kept)| == NextChunkWidth(p, kept)
  {
    hide Decimal, Remaining, PageLine, NoPageLine;
    var remaining := Remaining(p, kept);
    if p.pagingParam.Some? {
      PageLineLength(p.pagingParam.value, p.offset + kept, remaining);
    }
    NoPageLineLength(remaining);
    assert |"- This is the last chunk."| == 25;
  }

  lemma NoticeLength(p: Parts, title: string, kept: nat, cut: Option<Cut>)
    ensures |Notice(p, title, kept, cut)|
         == |Heading(title)| + |ReturnedLine(p, kept)| + |CutLine(p, cut)| + |HintLines(p.hints)| + 1 + |NextChunkLine(p, kept)|
  {
    hide Heading, ReturnedLine, CutLine, HintLines, NextChunkLine;
  }

  /** How much longer the notice for `kept` lines is than the one for none: a matter of digits alone. */
  function Growth(p: Parts, kept: nat): int {
    if kept == 0 then 0
    else Width(p.offset) + Width(p.offset + kept - 1) - 24 + NextChunkWidth(p, kept) - NextChunkWidth(p, 0)
  }

  lemma NoticeGrows(p: Parts, title: string, kept: nat, cut: Option<Cut>)
    ensures |Notice(p, title, kept, cut)| == |Notice(p, title, 0, cut)| + Growth(p, kept)
  {
    hide Decimal, ReturnedLine, NextChunkLine, NextChunkWidth, Notice;
    if kept > 0 {
      ReturnedLength(p, kept);
      NextChunkLength(p, kept);
      NextChunkLength(p, 0);
      NoticeLength(p, title, kept, cut);
      NoticeLength(p, title, 0, cut);
    }
  }

  /** What the second of the two measured notices adds to the reserve. */
  function Reserve(p: Parts): nat {
    var all := Growth(p, TotalLines(p));
    if all > 0 then all else 0
  }

  /** Exactly when a notice is within the reserve, by the digits of the offset, the lines kept and the total. */
  lemma NoticeFitsIff(p: Parts, kept: nat, cut: Option<Cut>)
    ensures |WorstNotice(p, cut)| == |Notice(p, TRUNCATED, 0, cut)| + Reserve(p)
    ensures |Notice(p, TRUNCATED, kept, cut)| <= |WorstNotice(p, cut)| <==> Growth(p, kept) <= Reserve(p)
  {
    hide Notice, Growth, TotalLines;
    NoticeGrows(p, TRUNCATED, kept, cut);
    NoticeGrows(p, TRUNCATED, TotalLines(p), cut);
  }

  lemma NoGrowth(p: Parts, kept: nat)
    requires p.offset + kept < Pow10(12)
    ensures Growth(p, kept) <= 0
  {
    if kept > 0 {
      hide Decimal, Pow10;
      WidthAtMost(p.offset, 12);
      WidthAtMost(p.offset + kept, 12);
      WidthAtMost(p.offset + kept - 1, 12);
      WiderIsLonger(Remaining(p, kept), Remaining(p, 0));
    }
  }

  /** With line numbers of at most twelve digits, no notice is longer than the one for nothing kept. */
  lemma NoticeForNoneIsLongest(p: Parts, title: string, kept: nat, cut: Option<Cut>)
    requires p.offset + kept < Pow10(12)
    ensures |Notice(p, title, kept, cut)| <= |Notice(p, title, 0, cut)|
  {
    hide Growth, Notice, Pow10;
    NoGrowth(p, kept);
    NoticeGrows(p, title, kept, cut);
  }

  lemma TotalOfFive(a: string, b: string, c: string, d: string, e: string)
    ensures TotalCost([a, b, c, d, e]) == Cost(a) + Cost(b) + Cost(c) + Cost(d) + Cost(e)
  {
    hide Cost;
    assert [a, b, c, d, e][1..] == [b, c, d, e] && [b, c, d, e][1..] == [c, d, e];
    assert [c, d, e][1..] == [d, e] && [d, e][1..] == [e] && [e][1..] == [];
    assert TotalCost([e]) == Cost(e);
    assert TotalCost([d, e]) == Cost(d) + Cost(e);
    assert TotalCost([c, d, e]) == Cost(c) + Cost(d) + Cost(e);
  }

  lemma AssembleLength(p: Parts, sections: string, body: string, notice: string)
    requires !IsBlank(notice)
    ensures |Assemble(p, sections, body, notice)|
         == Cost(Join(HeaderLines(p.header))) + Cost(Join(NoteLines(p.notes))) + Cost(sections) + Cost(body) + Cost(notice) - 2
  {
    hide HeaderLines, NoteLines, Join, Solid, JoinBlocks, TotalCost;
    var h, n := Join(HeaderLines(p.header)), Join(NoteLines(p.notes));
    BlocksLength([h, n, sections, body, notice]);
    TotalOfFive(h, n, sections, body, notice);
    assert Cost(notice) > 0;
  }

  lemma HeadingIsSolid(title: string, rest: string)
    ensures !IsBlank(Heading(title) + rest)
  {
    assert (Heading(title) + rest)[0] == '-';
  }

  lemma NoticeIsSolid(p: Parts, title: string, kept: nat, cut: Option<Cut>)
    ensures !IsBlank(Notice(p, title, kept, cut))
  {
    assert Notice(p, title, kept, cut)[0] == '-';
  }

  /** The truncated response is as long as its overhead, but for the body, the marker and the digits of its notice. */
  lemma DraftLength(p: Parts)
    ensures |Draft(p)| == BodyOverhead(p) + Growth(p, KeptCount(p)) - Reserve(p)
                          + if KeptCount(p) == 0 then -|Heading(p.bodyLabel)| - 2 else |BodyKept(p)| + |MarkerText(p)|
  {
    hide Split, Kept, CountTitles, TrimEnd, Join, HeaderLines, NoteLines, SectionsFull, SectionsBudget, TotalLines, BodyLines;
    hide Assemble, Notice, SectionsCut, SectionsKept, IsBlank, Heading, JoinBlocks, Growth, Reserve, MarkerText, BodyKept, KeptCount;
    var cut, k, heading := SectionsCut(p), KeptCount(p), Heading(p.bodyLabel);
    NoticeGrows(p, TRUNCATED, k, cut);
    NoticeFitsIff(p, k, cut);
    NoticeIsSolid(p, TRUNCATED, 0, cut);
    NoticeIsSolid(p, TRUNCATED, TotalLines(p), cut);
    NoticeIsSolid(p, TRUNCATED, k, cut);
    AssembleLength(p, SectionsKept(p), heading, WorstNotice(p, cut));
    HeadingIsSolid(p.bodyLabel, "");
    assert heading + "" == heading;
    if k == 0 {
      EmptyIsBlank();
      AssembleLength(p, SectionsKept(p), "", Notice(p, TRUNCATED, k, cut));
    } else {
      var body := heading + BodyKept(p) + MarkerText(p);
      HeadingIsSolid(p.bodyLabel, BodyKept(p) + MarkerText(p));
      Assoc(heading, BodyKept(p), MarkerText(p));
      AssembleLength(p, SectionsKept(p), body, Notice(p, TRUNCATED, k, cut));
    }
  }

  lemma EmptyIsBlank()
    ensures IsBlank("")
  {
  }

  /** For every response: exactly when it fits before the clamp. */
  lemma TruncatedFitsIff(p: Parts)
    requires BodyOverhead(p) <= p.maxChars
    ensures |Draft(p)| <= p.maxChars <==>
              (KeptCount(p) == 0
               || |BodyKept(p)| + |MarkerText(p)| + Growth(p, KeptCount(p)) <= p.maxChars - BodyOverhead(p) + Reserve(p))
    ensures |FullText(p)| > p.maxChars ==> (Response(p).text == Draft(p) <==> |Draft(p)| <= p.maxChars)
  {
    hide Draft, BodyOverhead, Reserve, KeptCount, MarkerText, BodyKept, FullText, Clamped, Heading;
    DraftLength(p);
    ClampedFits(Draft(p), p.maxChars);
  }

  /** No omission marker a response could need is longer than the two its reserve measures. */
  ghost predicate MarkersWithinEnds(p: Parts) {
    var all := |BodyLines(p)|;
    p.omissionMarker.Some? ==>
      forall n: nat :: 0 < n <= all ==>
        |p.omissionMarker.value(n)| <= |p.omissionMarker.value(0)| || |p.omissionMarker.value(n)| <= |p.omissionMarker.value(all)|
  }

  lemma MarkerFits(p: Parts)
    requires MarkersWithinEnds(p)
    ensures |MarkerText(p)| <= WorstMarkerLength(p)
  {
    hide BodyLines, KeptCount;
  }

  /** The one marker in use, a fixed text around a number. */
  function LinesOmitted(n: nat): string {
    "\U{2026} (" + Decimal(n) + " lines omitted) \U{2026}"
  }

  lemma LinesOmittedIsWithin(p: Parts)
    requires p.omissionMarker == Some(LinesOmitted)
    ensures MarkersWithinEnds(p)
  {
    var all := |BodyLines(p)|;
    hide BodyLines;
    forall n: nat | 0 < n <= all ensures |LinesOmitted(n)| <= |LinesOmitted(all)| {
      WiderIsLonger(n, all);
    }
  }

  /**
    If the overhead leaves any room at all, line numbers stay below 10^12 and no marker is longer than
    those at the ends, the truncated response already fits: the clamp changes nothing.
   */
  lemma TruncatedFitsUnclamped(p: Parts)
    requires BodyOverhead(p) <= p.maxChars && p.offset + KeptCount(p) < Pow10(12) && MarkersWithinEnds(p)
    ensures |Draft(p)| <= p.maxChars
    ensures |FullText(p)| > p.maxChars ==> Response(p).text == Draft(p)
  {
    TruncatedFitsIff(p);
    NoGrowth(p, KeptCount(p));
    MarkerFits(p);
    hide Draft, BodyOverhead, KeptCount, MarkerText, BodyKept, FullText, Response, WorstMarkerLength, Growth, Pow10, MarkersWithinEnds;
    if KeptCount(p) > 0 {
      RoomForBody(p);
    }
  }

  /** A body is only kept when there is room for it and for the marker. */
  lemma RoomForBody(p: Parts)
    requires KeptCount(p) > 0
    ensures |BodyKept(p)| <= p.maxChars - BodyOverhead(p) - WorstMarkerLength(p)
  {
    hide Split, BodyOverhead, WorstMarkerLength, TrimEnd;
    KeptIsAPrefix(TrimEnd(Canonical.Crlf(p.body)), p.maxChars - BodyOverhead(p) - WorstMarkerLength(p));
  }

  // ----- the kept lines are the first lines ---------------------------------------------------------------------

  lemma KeptBodyIsItsFirstLines(p: Parts)
    requires KeptCount(p) > 0
    ensures var lines := Split(TrimEnd(Canonical.Crlf(p.body)));
            KeptCount(p) <= |lines| && Split(BodyKept(p)) == lines[..KeptCount(p)]
  {
    var text := TrimEnd(Canonical.Crlf(p.body));
    var budget, lines := p.maxChars - BodyOverhead(p) - WorstMarkerLength(p), Split(text);
    hide BodyOverhead, WorstMarkerLength, TrimEnd, LinesWithin;
    if budget >= |text| {
      assert lines[..|lines|] == lines;
    } else {
      var n := LinesWithin(lines, budget);
      assert BodyKept(p) == Join(lines[..n]);
      if n > 0 {
        SplitJoin(lines[..n]);
      }
    }
  }

  lemma {:induction false} FewerLinesInFront(text: string, front: string)
    requires front <= text
    ensures |Split(front)| <= |Split(text)|
  {
    if front != "" {
      FewerLinesInFront(text[1..], front[1..]);
    }
  }

  lemma KeptWithinBody(p: Parts)
    ensures KeptCount(p) <= |BodyLines(p)|
  {
    if KeptCount(p) > 0 {
      KeptBodyIsItsFirstLines(p);
      FewerLinesInFront(Canonical.Crlf(p.body), TrimEnd(Canonical.Crlf(p.body)));
      hide BodyKept, Split, TrimEnd;
    }
  }

  /** What a caller can check in advance: enough room, line numbers below 10^12 and the usual marker or none. */
  lemma UsualResponseFits(p: Parts)
    requires BodyOverhead(p) <= p.maxChars && p.offset + |BodyLines(p)| < Pow10(12)
    requires p.omissionMarker == None || p.omissionMarker == Some(LinesOmitted)
    ensures |Draft(p)| <= p.maxChars
  {
    hide BodyOverhead, BodyLines, KeptCount, Pow10, Draft, FullText, Response;
    KeptWithinBody(p);
    if p.omissionMarker.Some? {
      LinesOmittedIsWithin(p);
    }
    TruncatedFitsUnclamped(p);
  }

  /** There is more exactly while the next offset is still a line, and reading on from there leaves what is left. */
  lemma ChunksAddUp(p: Parts, kept: nat, more: nat)
    ensures Remaining(p, kept) > 0 <==> p.offset + kept <= TotalLines(p)
    ensures Remaining(p.(offset := p.offset + kept), more) == Remaining(p, kept + more)
  {
  }

  // ----- the size line ------------------------------------------------------------------------------------------

  datatype Size = Size(chars: nat, lines: nat, truncated: bool)

  function CountLines(text: string): nat {
    if text == "" then 0 else |Split(Canonical.Crlf(text))|
  }

  function Measure(built: Built): Size {
    Size(|built.text|, CountLines(built.text), built.truncated)
  }

  function FormatSize(size: Size): string {
    Decimal(size.chars) + " chars, " + Decimal(size.lines) + " lines, truncated=" + if size.truncated then "true" else "false"
  }

  /** `{ ...header, [key]: value }`: in place if the key is there, else at the end. */
  function SetHeader(header: seq<(string, string)>, key: string, value: string): seq<(string, string)> {
    if header == [] then [(key, value)]
    else if header[0].0 == key then [(key, value)] + header[1..]
    else [header[0]] + SetHeader(header[1..], key, value)
  }

  /** Afterwards the key has the value, and whatever another key had it still has, in the same order. */
  lemma {:induction false} SetHeaderIs(header: seq<(string, string)>, key: string, value: string, other: string)
    ensures exists i :: 0 <= i < |SetHeader(header, key, value)| && SetHeader(header, key, value)[i] == (key, value)
    ensures other != key ==> ValuesOf(SetHeader(header, key, value), other) == ValuesOf(header, other)
  {
    var changed := SetHeader(header, key, value);
    if header == [] || header[0].0 == key {
      assert changed[0] == (key, value);
      assert changed[1..] == if header == [] then [] else header[1..];
    } else {
      SetHeaderIs(header[1..], key, value, other);
      var i :| 0 <= i < |changed[1..]| && changed[1..][i] == (key, value);
      assert changed[i + 1] == (key, value);
    }
  }

  function ValuesOf(header: seq<(string, string)>, key: string): seq<string> {
    if header == [] then [] else (if header[0].0 == key then [header[0].1] else []) + ValuesOf(header[1..], key)
  }

  function WithSize(p: Parts, text: string): Parts {
    p.(header := SetHeader(p.header, "size", text))
  }

  lemma SizeInWords(size: Size)
    ensures FormatSize(size)
         == Decimal(size.chars) + " chars, " + Decimal(size.lines) + " lines, truncated=" + if size.truncated then "true" else "false"
  {
  }

  /** The size stated in the response is its own size, unless it is marked as approximate. */
  method WithSizeLine(p: Parts) returns (built: Built, size: Size)
    ensures var text := Decimal(size.chars) + " chars, " + Decimal(size.lines) + " lines, truncated=" + if size.truncated then "true" else "false";
            || (built == Response(WithSize(p, text))
                && size.chars == |built.text| && size.lines == CountLines(built.text) && size.truncated == built.truncated)
            || built == Response(WithSize(p, "~" + text))
    ensures built.chars == |built.text| <= p.maxChars
  {
    hide Response, FormatSize;
    var base := RenderResponse(p);
    var claim := Measure(base);
    for round := 0 to 4 {
      built := RenderResponse(WithSize(p, FormatSize(claim)));
      ResponseFits(WithSize(p, FormatSize(claim)));
      var actual := Measure(built);
      if actual == claim {
        SizeInWords(actual);
        return built, actual;
      }
      claim := actual;
    }
    built := RenderResponse(WithSize(p, "~" + FormatSize(claim)));
    ResponseFits(WithSize(p, "~" + FormatSize(claim)));
    size := claim;
    SizeInWords(size);
  }
}
