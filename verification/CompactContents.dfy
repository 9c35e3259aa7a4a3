/** What a response of src/compact.ts shows of its parts, and what it says about the rest. */
module CompactContents {
  import opened Options
  import opened Sequences
  import opened Text
  import opened Decimals
  import opened Compact
  import Canonical

  // ----- texts inside texts --------------------------------------------------------------------------------

  ghost predicate Contains(text: string, part: string) {
    exists before, after :: text == before + part + after
  }

  ghost predicate EndsIn(text: string, part: string) {
    exists before :: text == before + part
  }

  lemma ContainsAt(text: string, before: string, part: string, after: string)
    requires text == before + part + after
    ensures Contains(text, part)
  {
  }

  lemma ContainsThrough(text: string, block: string, part: string)
    requires Contains(text, block) && Contains(block, part)
    ensures Contains(text, part)
  {
    var a, b :| text == a + block + b;
    var c, d :| block == c + part + d;
    ContainsAt(text, a + c, part, d + b);
  }

  lemma EndsInThrough(text: string, block: string, part: string)
    requires EndsIn(text, block) && EndsIn(block, part)
    ensures EndsIn(text, part)
  {
    var a :| text == a + block;
    var b :| block == b + part;
    assert text == (a + b) + part;
  }

  lemma EndIsContained(text: string, part: string)
    requires EndsIn(text, part)
    ensures Contains(text, part)
  {
    var a :| text == a + part;
    ContainsAt(text, a, part, "");
  }

  lemma {:induction false} LineInside(lines: seq<string>, i: nat)
    requires i < |lines|
    ensures Contains(Join(lines), lines[i])
  {
    if |lines| == 1 {
      ContainsAt(Join(lines), "", lines[0], "");
    } else if i == 0 {
      ContainsAt(Join(lines), "", lines[0], "\n" + Join(lines[1..]));
    } else {
      LineInside(lines[1..], i - 1);
      ContainsAt(Join(lines), lines[0] + "\n", Join(lines[1..]), "");
      ContainsThrough(Join(lines), Join(lines[1..]), lines[i]);
    }
  }

  lemma {:induction false} BlockInJoin(blocks: seq<string>, i: nat)
    requires i < |blocks|
    ensures Contains(JoinBlocks(blocks), blocks[i])
    ensures EndsIn(JoinBlocks(blocks), blocks[|blocks| - 1])
  {
    if |blocks| == 1 {
      ContainsAt(JoinBlocks(blocks), "", blocks[0], "");
      assert JoinBlocks(blocks) == "" + blocks[0];
    } else {
      BlockInJoin(blocks[1..], if i == 0 then 0 else i - 1);
      var head, rest := blocks[0] + "\n\n", JoinBlocks(blocks[1..]);
      assert EndsIn(JoinBlocks(blocks), rest) by {
        assert JoinBlocks(blocks) == head + rest;
      }
      EndsInThrough(JoinBlocks(blocks), rest, blocks[|blocks| - 1]);
      if i == 0 {
        ContainsAt(JoinBlocks(blocks), "", blocks[0], "\n\n" + rest);
      } else {
        EndIsContained(JoinBlocks(blocks), rest);
        ContainsThrough(JoinBlocks(blocks), rest, blocks[i]);
      }
    }
  }

  lemma {:induction false} SolidOnes(blocks: seq<string>)
    ensures forall b :: b in Solid(blocks) <==> b in blocks && !IsBlank(b)
    ensures blocks != [] && !IsBlank(blocks[|blocks| - 1]) ==>
              Solid(blocks) != [] && Solid(blocks)[|Solid(blocks)| - 1] == blocks[|blocks| - 1]
  {
    hide IsBlank;
    if blocks != [] {
      SolidOnes(blocks[1..]);
      assert blocks == [blocks[0]] + blocks[1..];
    }
  }

  /** A block that is not blank is in the text, and the last one ends it. */
  lemma BlockShows(blocks: seq<string>, b: string)
    requires b in blocks && !IsBlank(b)
    ensures Contains(JoinBlocks(Solid(blocks)), b)
    ensures blocks[|blocks| - 1] == b ==> EndsIn(JoinBlocks(Solid(blocks)), b)
  {
    SolidOnes(blocks);
    var solid := Solid(blocks);
    hide IsBlank, JoinBlocks, Solid, Contains, EndsIn;
    var i :| 0 <= i < |solid| && solid[i] == b;
    BlockInJoin(solid, i);
  }

  lemma SolidIf(s: string, i: nat)
    requires i < |s| && !IsSpace(s[i])
    ensures !IsBlank(s)
  {
  }

  lemma NotBlankThrough(text: string, part: string)
    requires Contains(text, part) && !IsBlank(part)
    ensures !IsBlank(text)
  {
    var a, b :| text == a + part + b;
    var i :| 0 <= i < |part| && !IsSpace(part[i]);
    assert text[|a| + i] == part[i];
  }

  // ----- the blocks of a response ------------------------------------------------------------------------------

  lemma AssembledShows(p: Parts, sections: string, body: string, notice: string, b: string)
    requires b in [Join(HeaderLines(p.header)), Join(NoteLines(p.notes)), sections, body, notice] && !IsBlank(b)
    ensures Contains(Assemble(p, sections, body, notice), b)
    ensures b == notice ==> EndsIn(Assemble(p, sections, body, notice), b)
  {
    hide JoinBlocks, Solid, Join, HeaderLines, NoteLines, IsBlank, Contains, EndsIn;
    BlockShows([Join(HeaderLines(p.header)), Join(NoteLines(p.notes)), sections, body, notice], b);
  }

  lemma {:induction false} HeaderLineIn(header: seq<(string, string)>, i: nat)
    requires i < |header| && header[i].1 != ""
    ensures header[i].0 + ": " + header[i].1 in HeaderLines(header)
  {
    if i > 0 {
      HeaderLineIn(header[1..], i - 1);
    }
  }

  lemma {:induction false} NoteLineIn(notes: seq<string>, i: nat)
    requires i < |notes|
    ensures "NOTE: " + notes[i] in NoteLines(notes)
  {
    if i > 0 {
      NoteLineIn(notes[1..], i - 1);
    }
  }

  lemma {:induction false} SectionIn(sections: seq<Section>, i: nat)
    requires i < |sections| && !IsBlank(sections[i].content)
    ensures "--- " + sections[i].title + " ---\n" + TrimEnd(sections[i].content) in SectionBlocks(sections)
  {
    hide IsBlank;
    if i > 0 {
      SectionIn(sections[1..], i - 1);
    }
  }

  /** Every header field that has a value and every note is in every response, whatever had to be cut. */
  lemma HeaderAndNotesShow(p: Parts, sections: string, body: string, notice: string)
    ensures forall i :: 0 <= i < |p.header| && p.header[i].1 != "" ==>
              Contains(Assemble(p, sections, body, notice), p.header[i].0 + ": " + p.header[i].1)
    ensures forall i :: 0 <= i < |p.notes| ==> Contains(Assemble(p, sections, body, notice), "NOTE: " + p.notes[i])
  {
    var text := Assemble(p, sections, body, notice);
    hide Assemble, IsBlank, Contains, HeaderLines, NoteLines;
    forall i | 0 <= i < |p.header| && p.header[i].1 != "" ensures Contains(text, p.header[i].0 + ": " + p.header[i].1) {
      HeaderLineIn(p.header, i);
      var line := p.header[i].0 + ": " + p.header[i].1;
      SolidIf(line, |p.header[i].0|);
      LineShows(p, sections, body, notice, HeaderLines(p.header), line);
    }
    forall i | 0 <= i < |p.notes| ensures Contains(text, "NOTE: " + p.notes[i]) {
      NoteLineIn(p.notes, i);
      SolidIf("NOTE: " + p.notes[i], 0);
      LineShows(p, sections, body, notice, NoteLines(p.notes), "NOTE: " + p.notes[i]);
    }
  }

  lemma LineShows(p: Parts, sections: string, body: string, notice: string, lines: seq<string>, line: string)
    requires line in lines && !IsBlank(line) && (lines == HeaderLines(p.header) || lines == NoteLines(p.notes))
    ensures Contains(Assemble(p, sections, body, notice), line)
  {
    hide Assemble, IsBlank, Contains, HeaderLines, NoteLines, Join;
    var i :| 0 <= i < |lines| && lines[i] == line;
    LineInside(lines, i);
    NotBlankThrough(Join(lines), line);
    AssembledShows(p, sections, body, notice, Join(lines));
    ContainsThrough(Assemble(p, sections, body, notice), Join(lines), line);
  }

  /** A response that fits shows every section and the whole body; if it is a window, the notice ends it. */
  lemma FullTextShows(p: Parts)
    ensures forall i :: 0 <= i < |p.sections| && !IsBlank(p.sections[i].content) ==>
              Contains(FullText(p), "--- " + p.sections[i].title + " ---\n" + TrimEnd(p.sections[i].content))
    ensures p.body != "" ==> Contains(FullText(p), "--- " + p.bodyLabel + " ---\n" + TrimEnd(p.body))
    ensures IsWindowed(p) ==> EndsIn(FullText(p), Notice(p, "WINDOW", |BodyLines(p)|, None))
  {
    var sections := SectionsFull(p);
    var body := if BodyLines(p) == [] then "" else Heading(p.bodyLabel) + TrimEnd(p.body);
    var notice := if IsWindowed(p) then Notice(p, "WINDOW", |BodyLines(p)|, None) else "";
    assert p.body != "" ==> body == "--- " + p.bodyLabel + " ---\n" + TrimEnd(p.body);
    HeadingIsSolid(p.bodyLabel, TrimEnd(p.body));
    NoticeIsSolid(p, "WINDOW", |BodyLines(p)|, None);
    hide Assemble, IsBlank, Contains, EndsIn, Notice, TrimEnd, SectionBlocks, JoinBlocks, IsWindowed, Canonical.Crlf, Split;
    if p.body != "" {
      AssembledShows(p, sections, body, notice, body);
    }
    if IsWindowed(p) {
      AssembledShows(p, sections, body, notice, notice);
    }
    forall i | 0 <= i < |p.sections| && !IsBlank(p.sections[i].content)
      ensures Contains(FullText(p), "--- " + p.sections[i].title + " ---\n" + TrimEnd(p.sections[i].content))
    {
      SectionShows(p, body, notice, i);
    }
  }

  lemma SectionShows(p: Parts, body: string, notice: string, i: nat)
    requires i < |p.sections| && !IsBlank(p.sections[i].content)
    ensures Contains(Assemble(p, SectionsFull(p), body, notice), "--- " + p.sections[i].title + " ---\n" + TrimEnd(p.sections[i].content))
  {
    hide Assemble, IsBlank, Contains, TrimEnd, SectionBlocks, JoinBlocks;
    var block, blocks := "--- " + p.sections[i].title + " ---\n" + TrimEnd(p.sections[i].content), SectionBlocks(p.sections);
    SectionIn(p.sections, i);
    var k :| 0 <= k < |blocks| && blocks[k] == block;
    BlockInJoin(blocks, k);
    SolidIf(block, 0);
    NotBlankThrough(SectionsFull(p), block);
    AssembledShows(p, SectionsFull(p), body, notice, SectionsFull(p));
    ContainsThrough(Assemble(p, SectionsFull(p), body, notice), SectionsFull(p), block);
  }

  /** A truncated response shows the lines it kept under the body's label, and its notice ends it. */
  lemma DraftShows(p: Parts)
    ensures KeptCount(p) > 0 ==> Contains(Draft(p), "--- " + p.bodyLabel + " ---\n" + BodyKept(p) + MarkerText(p))
    ensures EndsIn(Draft(p), Notice(p, TRUNCATED, KeptCount(p), SectionsCut(p)))
    ensures !IsBlank(SectionsKept(p)) ==> Contains(Draft(p), SectionsKept(p))
  {
    var k, cut := KeptCount(p), SectionsCut(p);
    var body := if k == 0 then "" else Heading(p.bodyLabel) + BodyKept(p) + MarkerText(p);
    var notice := Notice(p, TRUNCATED, k, cut);
    assert k > 0 ==> body == "--- " + p.bodyLabel + " ---\n" + BodyKept(p) + MarkerText(p);
    HeadingIsSolid(p.bodyLabel, BodyKept(p) + MarkerText(p));
    Assoc(Heading(p.bodyLabel), BodyKept(p), MarkerText(p));
    NoticeIsSolid(p, TRUNCATED, k, cut);
    hide Assemble, IsBlank, Contains, EndsIn, Notice, BodyKept, MarkerText, KeptCount, SectionsKept, SectionsCut, Heading;
    if k > 0 {
      AssembledShows(p, SectionsKept(p), body, notice, body);
    }
    AssembledShows(p, SectionsKept(p), body, notice, notice);
    if !IsBlank(SectionsKept(p)) {
      AssembledShows(p, SectionsKept(p), body, notice, SectionsKept(p));
    }
  }

  // ----- what the notice says ---------------------------------------------------------------------------------------

  lemma NoticeEnds(p: Parts, title: string, kept: nat, cut: Option<Cut>)
    ensures EndsIn(Notice(p, title, kept, cut), NextChunkLine(p, kept))
    ensures Contains(Notice(p, title, kept, cut), ReturnedLine(p, kept))
  {
    hide Heading, ReturnedLine, CutLine, HintLines, NextChunkLine;
    var a, b := Heading(title), CutLine(p, cut) + HintLines(p.hints) + "\n" + NextChunkLine(p, kept);
    assert Notice(p, title, kept, cut) == (a + ReturnedLine(p, kept) + CutLine(p, cut) + HintLines(p.hints) + "\n") + NextChunkLine(p, kept);
    assert Notice(p, title, kept, cut) == a + ReturnedLine(p, kept) + b;
  }

  lemma {:induction false} HintInside(hints: seq<string>, i: nat)
    requires i < |hints|
    ensures Contains(HintLines(hints), "- " + hints[i])
  {
    if i == 0 {
      ContainsAt(HintLines(hints), "\n", "- " + hints[0], HintLines(hints[1..]));
    } else {
      HintInside(hints[1..], i - 1);
      ContainsAt(HintLines(hints), "\n- " + hints[0], HintLines(hints[1..]), "");
      ContainsThrough(HintLines(hints), HintLines(hints[1..]), "- " + hints[i]);
    }
  }

  lemma NoticeHints(p: Parts, title: string, kept: nat, cut: Option<Cut>, i: nat)
    requires i < |p.hints|
    ensures Contains(Notice(p, title, kept, cut), "- " + p.hints[i])
  {
    hide Heading, ReturnedLine, CutLine, HintLines, NextChunkLine;
    HintInside(p.hints, i);
    ContainsAt(Notice(p, title, kept, cut), Heading(title) + ReturnedLine(p, kept) + CutLine(p, cut), HintLines(p.hints), "\n" + NextChunkLine(p, kept));
    ContainsThrough(Notice(p, title, kept, cut), HintLines(p.hints), "- " + p.hints[i]);
  }

  /** The line after the last one shown, counted as the caller counts. */
  function FirstMissing(p: Parts, built: Built): nat {
    p.offset + if built.returnedLines.Some? then built.returnedLines.value else 0
  }

  function LinesInAll(p: Parts): nat {
    if p.bodyTotalLines.Some? then p.bodyTotalLines.value
    else if p.body == "" then 0 else |Split(Canonical.Crlf(p.body))|
  }

  /** There is more exactly if the line after the last one shown is still a line of the whole. */
  lemma HasMoreIff(p: Parts)
    ensures Response(p).hasMore <==> FirstMissing(p, Response(p)) <= LinesInAll(p)
  {
    hide FullText, Draft, Clamped, KeptCount, SectionsCut, Split, Canonical.Crlf;
  }

  /** The text itself, before any clamp. */
  function Unclamped(p: Parts): string {
    if |FullText(p)| <= p.maxChars then FullText(p) else Draft(p)
  }

  /** What to ask for next, in words. */
  function GoOn(p: Parts, next: nat, all: nat): string {
    if next > all then "- This is the last chunk."
    else if p.pagingParam.Some? && p.pagingParam.value != "" then
      "- Fetch the next chunk with " + p.pagingParam.value + "=" + Decimal(next) + " (" + Decimal(all + 1 - next) + " line(s) not shown)."
    else NoPageLine(all + 1 - next)
  }

  lemma NextIs(p: Parts, kept: nat)
    ensures NextChunkLine(p, kept) == GoOn(p, p.offset + kept, LinesInAll(p))
  {
    hide Decimal, NoPageLine, Split, Canonical.Crlf;
  }

  lemma WindowEnds(p: Parts)
    requires |FullText(p)| <= p.maxChars && IsWindowed(p)
    ensures EndsIn(FullText(p), GoOn(p, p.offset + |BodyLines(p)|, LinesInAll(p)))
  {
    FullTextShows(p);
    NoticeEnds(p, "WINDOW", |BodyLines(p)|, None);
    NextIs(p, |BodyLines(p)|);
    hide FullText, Notice, NextChunkLine, EndsIn, Contains, GoOn, LinesInAll, BodyLines;
    EndsInThrough(FullText(p), Notice(p, "WINDOW", |BodyLines(p)|, None), NextChunkLine(p, |BodyLines(p)|));
  }

  lemma DraftEnds(p: Parts)
    ensures EndsIn(Draft(p), GoOn(p, p.offset + KeptCount(p), LinesInAll(p)))
  {
    DraftShows(p);
    NoticeEnds(p, TRUNCATED, KeptCount(p), SectionsCut(p));
    NextIs(p, KeptCount(p));
    hide Draft, Notice, NextChunkLine, EndsIn, Contains, GoOn, LinesInAll, KeptCount, SectionsCut;
    EndsInThrough(Draft(p), Notice(p, TRUNCATED, KeptCount(p), SectionsCut(p)), NextChunkLine(p, KeptCount(p)));
  }

  /**
    A response that is not all there ends in what to ask for next: the first line it did not show and
    how many lines are left from there, or that nothing is left, or that paging is not to be had.
   */
  lemma SaysWhereToGoOn(p: Parts)
    requires Response(p).truncated
    ensures EndsIn(Unclamped(p), GoOn(p, FirstMissing(p, Response(p)), LinesInAll(p)))
  {
    hide FullText, Draft, Clamped, KeptCount, SectionsCut, GoOn, LinesInAll, EndsIn, Split, Canonical.Crlf;
    if |FullText(p)| <= p.maxChars {
      WindowEnds(p);
    } else {
      DraftEnds(p);
    }
  }

  /** What was returned, in words. */
  function Returned(p: Parts, shown: nat, all: nat): string {
    if shown > 0 then "Returned lines " + Decimal(p.offset) + ".." + Decimal(p.offset + shown - 1) + " of " + Decimal(all)
    else "Returned 0 of " + Decimal(all) + " line(s)"
  }

  lemma ReturnedSays(p: Parts, kept: nat)
    ensures Contains(ReturnedLine(p, kept), Returned(p, kept, LinesInAll(p)))
  {
    ShownIs(p, kept);
    hide Returned, ShownLine, LinesInAll, CapText;
    var words, tail := ShownLine(p, kept), if kept > 0 then CapText(p) else " \U{2014} the body did not fit" + CapText(p);
    assert ReturnedLine(p, kept) == "" + words + tail;
    ContainsAt(ReturnedLine(p, kept), "", words, tail);
  }

  lemma ShownIs(p: Parts, kept: nat)
    ensures ShownLine(p, kept) == Returned(p, kept, LinesInAll(p))
  {
    hide Split, Canonical.Crlf, Decimal;
  }

  lemma WindowSays(p: Parts)
    requires |FullText(p)| <= p.maxChars && IsWindowed(p)
    ensures Contains(FullText(p), Returned(p, |BodyLines(p)|, LinesInAll(p)))
  {
    FullTextShows(p);
    hide FullText, Notice, EndsIn, Contains, Returned, LinesInAll, BodyLines, ReturnedLine;
    var notice := Notice(p, "WINDOW", |BodyLines(p)|, None);
    NoticeEnds(p, "WINDOW", |BodyLines(p)|, None);
    ReturnedSays(p, |BodyLines(p)|);
    EndIsContained(FullText(p), notice);
    ContainsThrough(notice, ReturnedLine(p, |BodyLines(p)|), Returned(p, |BodyLines(p)|, LinesInAll(p)));
    ContainsThrough(FullText(p), notice, Returned(p, |BodyLines(p)|, LinesInAll(p)));
  }

  lemma DraftSays(p: Parts)
    ensures Contains(Draft(p), Returned(p, KeptCount(p), LinesInAll(p)))
  {
    DraftShows(p);
    hide Draft, Notice, EndsIn, Contains, Returned, LinesInAll, KeptCount, ReturnedLine, SectionsCut;
    var notice := Notice(p, TRUNCATED, KeptCount(p), SectionsCut(p));
    NoticeEnds(p, TRUNCATED, KeptCount(p), SectionsCut(p));
    ReturnedSays(p, KeptCount(p));
    EndIsContained(Draft(p), notice);
    ContainsThrough(notice, ReturnedLine(p, KeptCount(p)), Returned(p, KeptCount(p), LinesInAll(p)));
    ContainsThrough(Draft(p), notice, Returned(p, KeptCount(p), LinesInAll(p)));
  }

  /** A truncated response names the first and the last line it shows, as it reports them, and how many there are. */
  lemma SaysWhatItShows(p: Parts)
    requires Response(p).truncated
    ensures var built := Response(p);
            Contains(Unclamped(p), Returned(p, if built.returnedLines.Some? then built.returnedLines.value else 0, LinesInAll(p)))
  {
    hide FullText, Draft, Clamped, KeptCount, SectionsCut, Returned, LinesInAll, Contains, Split, Canonical.Crlf;
    if |FullText(p)| <= p.maxChars {
      WindowSays(p);
    } else {
      DraftSays(p);
    }
  }

  /** The mark left in the body speaks of exactly the lines that were left out. */
  lemma MarkerSays(p: Parts)
    requires p.omissionMarker.Some? && 0 < KeptCount(p) < |BodyLines(p)|
    ensures var text := p.omissionMarker.value(|BodyLines(p)| - KeptCount(p));
            MarkerText(p) == if text == "" then "" else "\n" + text
  {
    hide KeptCount, BodyLines;
  }

  lemma CutInNotice(p: Parts, title: string, kept: nat, cut: Option<Cut>)
    ensures Contains(Notice(p, title, kept, cut), CutLine(p, cut))
  {
    hide Heading, ReturnedLine, CutLine, HintLines, NextChunkLine;
    ContainsAt(Notice(p, title, kept, cut), Heading(title) + ReturnedLine(p, kept), CutLine(p, cut), HintLines(p.hints) + "\n" + NextChunkLine(p, kept));
  }

  /** If sections were cut, the response says how much of them is left. */
  lemma SaysWhatWasCut(p: Parts)
    requires SectionsKept(p) != SectionsFull(p)
    ensures Contains(Draft(p), "Prologue sections were ALSO cut: " + Decimal(|SectionsKept(p)|) + " of " + Decimal(|SectionsFull(p)|)
                               + " characters kept in ")
  {
    SectionsKeptIff(p);
    DraftShows(p);
    var k, cut := KeptCount(p), SectionsCut(p);
    var words := "Prologue sections were ALSO cut: " + Decimal(|SectionsKept(p)|) + " of " + Decimal(|SectionsFull(p)|) + " characters kept in ";
    hide Draft, Notice, EndsIn, Contains, KeptCount, SectionsFull, SectionsBudget, Kept, Room, CountTitles, Split, Decimal;
    assert cut.Some? && cut.value.keptChars == |SectionsKept(p)| && cut.value.totalChars == |SectionsFull(p)|;
    assert words == CutText(|SectionsKept(p)|, |SectionsFull(p)|);
    hide CutText;
    CutWords(p, cut);
    CutInNotice(p, TRUNCATED, k, cut);
    hide SectionsCut, SectionsKept, CutLine;
    EndIsContained(Draft(p), Notice(p, TRUNCATED, k, cut));
    ContainsThrough(Notice(p, TRUNCATED, k, cut), CutLine(p, cut), words);
    ContainsThrough(Draft(p), Notice(p, TRUNCATED, k, cut), words);
  }

  lemma CutWords(p: Parts, cut: Option<Cut>)
    requires cut.Some?
    ensures Contains(CutLine(p, cut), CutText(cut.value.keptChars, cut.value.totalChars))
  {
    hide Decimal, SectionBlocks, CutText;
    var words := CutText(cut.value.keptChars, cut.value.totalChars);
    ContainsAt(CutLine(p, cut), "\n", words, Decimal(cut.value.keptSections) + " of " + Decimal(|SectionBlocks(p.sections)|) + " section(s).");
  }

  /** A response that says it is not truncated is the whole text. */
  lemma TruncatedIff(p: Parts)
    ensures Response(p).truncated <==> |FullText(p)| > p.maxChars || |BodyLines(p)| < LinesInAll(p)
    ensures !Response(p).truncated ==> Response(p).text == FullText(p) && (p.offset >= 1 ==> !Response(p).hasMore)
    ensures Response(p).totalLines == (if |FullText(p)| <= p.maxChars && LinesInAll(p) == 0 then None else Some(LinesInAll(p)))
  {
    hide FullText, Draft, Clamped, KeptCount, SectionsCut, Split, Canonical.Crlf;
  }

  // ----- how sections and body share the room -------------------------------------------------------------------------

  /** The room beside header, notes, the body's heading and the notice. */
  function Room(p: Parts): nat {
    var full, blocks := |SectionsFull(p)|, |SectionBlocks(p.sections)|;
    var notice := WorstNotice(p, if blocks > 0 then Some(Cut(full, full, blocks)) else None);
    var left := p.maxChars - |Assemble(p, "", Heading(p.bodyLabel), notice)|;
    if left > 0 then left else 0
  }

  /** Sections are kept whole exactly if they and the body fit together, or if they leave the body half the room. */
  lemma SectionsKeptIff(p: Parts)
    ensures SectionsCut(p).None? <==> |SectionsFull(p)| + |p.body| <= Room(p) || 2 * |SectionsFull(p)| <= Room(p) + Room(p) % 2
    ensures SectionsCut(p).Some? ==> 2 * |SectionsKept(p)| <= Room(p) + Room(p) % 2 || |SectionsKept(p)| + |p.body| <= Room(p)
    ensures SectionsKept(p) <= SectionsFull(p)
    ensures |FullText(p)| > p.maxChars ==> (Response(p).sectionsTruncated <==> SectionsKept(p) != SectionsFull(p))
  {
    KeptIsAPrefix(SectionsFull(p), SectionsBudget(p));
    var room := Room(p);
    assert SectionsBudget(p) == room - if |p.body| <= room / 2 then |p.body| else room / 2;
    hide SectionsFull, SectionsBudget, Room, FullText, Draft, Clamped, Split, CountTitles, KeptCount, LinesWithin, Join;
  }
}
