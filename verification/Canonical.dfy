/** The source normal form of src/compact.ts. */
module Canonical {
  import opened Sequences
  import opened Text

  /** s.replace(/\r\n/g, "\n"): one pass from the left. */
  function Crlf(s: string): (r: string)
    ensures |r| <= |s|
  {
    if |s| < 2 then s
    else if s[0] == '\r' && s[1] == '\n' then "\n" + Crlf(s[2..])
    else [s[0]] + Crlf(s[1..])
  }

  predicate IsBlankChar(c: char) {
    c == ' ' || c == '\t'
  }

  function TrimLine(line: string): (r: string)
    ensures r <= line && (r == "" || !IsBlankChar(r[|r| - 1]))
  {
    if line != "" && IsBlankChar(line[|line| - 1]) then TrimLine(line[..|line| - 1]) else line
  }

  function TrimAll(lines: seq<string>): (r: seq<string>)
    ensures |r| == |lines| && forall i :: 0 <= i < |r| ==> r[i] == TrimLine(lines[i])
  {
    seq(|lines|, i requires 0 <= i < |lines| => TrimLine(lines[i]))
  }

  function StripNewlines(s: string): (r: string)
    ensures r <= s && (r == "" || r[|r| - 1] != '\n')
  {
    if s != "" && s[|s| - 1] == '\n' then StripNewlines(s[..|s| - 1]) else s
  }

  function Source(s: string): string {
    StripNewlines(Join(TrimAll(Split(Crlf(s)))))
  }

  // ----- the normal form, as lines --------------------------------------------------------------------------

  function DropEmpty(lines: seq<string>): (r: seq<string>)
    ensures r <= lines && (r == [] || r[|r| - 1] != "")
    ensures forall i :: |r| <= i < |lines| ==> lines[i] == ""
  {
    if lines != [] && lines[|lines| - 1] == "" then DropEmpty(lines[..|lines| - 1]) else lines
  }

  lemma {:induction false} JoinSnoc(lines: seq<string>, last: string)
    requires lines != []
    ensures Join(lines + [last]) == Join(lines) + "\n" + last
  {
    if |lines| == 1 {
      assert (lines + [last])[1..] == [last];
    } else {
      JoinSnoc(lines[1..], last);
      assert (lines + [last])[1..] == lines[1..] + [last];
    }
  }

  lemma {:induction false} StripJoin(lines: seq<string>)
    requires AllLines(lines)
    ensures StripNewlines(Join(lines)) == Join(DropEmpty(lines))
  {
    if |lines| == 1 {
      assert DropEmpty([]) == [];
    } else if lines != [] {
      var init, last := lines[..|lines| - 1], lines[|lines| - 1];
      JoinSnoc(init, last);
      assert lines == init + [last];
      StripJoin(init);
      hide Join;
      if last == "" {
        assert (Join(init) + "\n")[..|Join(init)|] == Join(init);
        assert Join(lines) == Join(init) + "\n";
      } else {
        assert last[|last| - 1] in last;
      }
    }
  }

  /** The lines the normal form is made of. */
  function Lines(s: string): seq<string> {
    DropEmpty(TrimAll(Split(Crlf(s))))
  }

  lemma TrimmedLines(lines: seq<string>)
    requires AllLines(lines)
    ensures AllLines(TrimAll(lines))
  {
    forall i | 0 <= i < |lines| ensures NoNewline(TrimAll(lines)[i]) {
      assert NoNewline(lines[i]);
    }
  }

  lemma SourceIsItsLines(s: string)
    ensures Source(s) == Join(Lines(s)) && AllLines(Lines(s))
    ensures Lines(s) != [] ==> Split(Source(s)) == Lines(s)
  {
    var trimmed := TrimAll(Split(Crlf(s)));
    TrimmedLines(Split(Crlf(s)));
    StripJoin(trimmed);
    if Lines(s) != [] {
      SplitJoin(Lines(s));
    }
  }

  /** No line ends in a blank, and the text does not end in a newline. */
  lemma SourceIsNormal(s: string)
    ensures var lines := Split(Source(s));
            && (forall i :: 0 <= i < |lines| ==> TrimLine(lines[i]) == lines[i])
            && (forall i :: 0 <= i < |lines| ==> lines[i] == "" || lines[i][|lines[i]| - 1] !in {' ', '\t'})
            && (Source(s) == "" || lines[|lines| - 1] != "")
  {
    SourceIsItsLines(s);
    if Lines(s) != [] {
      var trimmed := TrimAll(Split(Crlf(s)));
      forall i | 0 <= i < |Lines(s)| ensures TrimLine(Lines(s)[i]) == Lines(s)[i] {
        assert Lines(s)[i] == trimmed[i];
        TrimTwice(Split(Crlf(s))[i]);
      }
    }
  }

  lemma TrimTwice(line: string)
    ensures TrimLine(TrimLine(line)) == TrimLine(line)
  {
  }

  // ----- when a second pass changes nothing ----------------------------------------------------------------------

  ghost predicate HasCrlf(s: string) {
    exists i :: 0 <= i < |s| - 1 && s[i] == '\r' && s[i + 1] == '\n'
  }

  lemma {:induction false} CrlfWithout(s: string)
    ensures !HasCrlf(s) ==> Crlf(s) == s
    ensures HasCrlf(s) ==> |Crlf(s)| < |s|
  {
    if |s| >= 2 {
      var t := s[1..];
      CrlfWithout(t);
      assert HasCrlf(s) <==> (s[0] == '\r' && s[1] == '\n') || HasCrlf(t) by {
        if HasCrlf(s) {
          var i :| 0 <= i < |s| - 1 && s[i] == '\r' && s[i + 1] == '\n';
          assert i > 0 ==> t[i - 1] == '\r' && t[i] == '\n';
        }
        if HasCrlf(t) {
          var i :| 0 <= i < |t| - 1 && t[i] == '\r' && t[i + 1] == '\n';
          assert s[i + 1] == '\r' && s[i + 2] == '\n';
        }
      }
    }
  }

  predicate EndsInReturn(line: string) {
    line != "" && line[|line| - 1] == '\r'
  }

  lemma CrlfAtSeam(line: string, rest: string)
    requires NoNewline(line)
    ensures HasCrlf(line + "\n" + rest) <==> EndsInReturn(line) || HasCrlf(rest)
    ensures !HasCrlf(line)
  {
    var s, n := line + "\n" + rest, |line|;
    forall k | 0 <= k < n ensures line[k] != '\n' {
      assert line[k] in line;
    }
    if HasCrlf(s) {
      var i :| 0 <= i < |s| - 1 && s[i] == '\r' && s[i + 1] == '\n';
      assert i + 1 >= n;
      if i > n {
        assert rest[i - n - 1] == '\r' && rest[i - n] == '\n';
      }
    }
    if EndsInReturn(line) {
      assert s[n - 1] == '\r' && s[n] == '\n';
    }
    if HasCrlf(rest) {
      var i :| 0 <= i < |rest| - 1 && rest[i] == '\r' && rest[i + 1] == '\n';
      assert s[n + 1 + i] == '\r' && s[n + 2 + i] == '\n';
    }
  }

  /** Some line but the last ends in a carriage return. */
  ghost predicate ReturnInside(lines: seq<string>) {
    exists i :: 0 <= i < |lines| - 1 && EndsInReturn(lines[i])
  }

  lemma {:induction false} CrlfInJoin(lines: seq<string>)
    requires AllLines(lines)
    ensures HasCrlf(Join(lines)) <==> ReturnInside(lines)
  {
    if |lines| == 1 {
      CrlfAtSeam(lines[0], "");
    } else if |lines| > 1 {
      CrlfInJoin(lines[1..]);
      CrlfAtSeam(lines[0], Join(lines[1..]));
      assert ReturnInside(lines) <==> EndsInReturn(lines[0]) || ReturnInside(lines[1..]) by {
        if ReturnInside(lines) {
          var i :| 0 <= i < |lines| - 1 && EndsInReturn(lines[i]);
          assert i > 0 ==> lines[1..][i - 1] == lines[i];
        }
        if ReturnInside(lines[1..]) {
          var i :| 0 <= i < |lines| - 2 && EndsInReturn(lines[1..][i]);
          assert lines[i + 1] == lines[1..][i];
        }
      }
    }
  }

  lemma {:induction false} TrimShortens(lines: seq<string>)
    ensures |Join(TrimAll(lines))| <= |Join(lines)|
  {
    if |lines| > 1 {
      TrimShortens(lines[1..]);
      assert TrimAll(lines)[1..] == TrimAll(lines[1..]);
    }
  }

  /** Normalising shortens a text with a CRLF in it, and leaves a normal one without alone. */
  lemma SourceOf(s: string)
    ensures HasCrlf(s) ==> |Source(s)| < |s|
    ensures !HasCrlf(s) && Join(DropEmpty(TrimAll(Split(s)))) == s ==> Source(s) == s
  {
    CrlfWithout(s);
    SourceIsItsLines(s);
    TrimShortens(Split(Crlf(s)));
    JoinSplit(Crlf(s));
  }

  /** A bare return ends up right before a line break: some trimmed line ends in one, and text follows. */
  ghost predicate ReturnBeforeText(lines: seq<string>) {
    exists i, j :: 0 <= i < j < |lines| && EndsInReturn(TrimLine(lines[i])) && TrimLine(lines[j]) != ""
  }

  lemma ReturnsAgree(raw: seq<string>)
    ensures ReturnInside(DropEmpty(TrimAll(raw))) <==> ReturnBeforeText(raw)
  {
    var trimmed := TrimAll(raw);
    var lines := DropEmpty(trimmed);
    hide TrimLine, DropEmpty;
    if ReturnInside(lines) {
      var i :| 0 <= i < |lines| - 1 && EndsInReturn(lines[i]);
      var j := |lines| - 1;
      assert trimmed[i] == lines[i] && trimmed[j] == lines[j];
      assert EndsInReturn(TrimLine(raw[i])) && TrimLine(raw[j]) != "";
    }
    if ReturnBeforeText(raw) {
      var i, j :| 0 <= i < j < |raw| && EndsInReturn(TrimLine(raw[i])) && TrimLine(raw[j]) != "";
      assert trimmed[j] != "" && j < |lines|;
      assert lines[i] == trimmed[i];
    }
  }

  lemma DropTwice(lines: seq<string>)
    ensures DropEmpty(DropEmpty(lines)) == DropEmpty(lines)
  {
  }

  lemma NothingLeft()
    ensures Join(DropEmpty(TrimAll(Split("")))) == "" == Join([]) && !HasCrlf("")
  {
    assert TrimAll([""]) == [""];
    assert DropEmpty([""]) == DropEmpty([]);
  }

  /** Normalising twice is normalising once, except when the first pass makes a new CRLF. */
  lemma IdempotentIff(s: string)
    ensures Source(Source(s)) == Source(s) <==> !ReturnBeforeText(Split(Crlf(s)))
  {
    var lines := Lines(s);
    SourceIsItsLines(s);
    CrlfInJoin(lines);
    ReturnsAgree(Split(Crlf(s)));
    SourceOf(Source(s));
    SourceIsNormal(s);
    hide Source, HasCrlf, ReturnInside, ReturnBeforeText, Crlf, Split, Join, TrimLine;
    if lines != [] {
      assert TrimAll(lines) == lines;
      DropTwice(TrimAll(Split(Crlf(s))));
    } else {
      NothingLeft();
    }
  }

  lemma SplitBareReturn()
    ensures Split("a\r \nb") == ["a\r ", "b"]
  {
    assert NoNewline("a\r ") && NoNewline("b");
    SplitHead("a\r ", "b");
    SplitHead("b", "");
    assert "a\r " + "\n" + "b" == "a\r \nb";
  }

  /** The failing case is real. */
  lemma BareReturnFails()
    ensures Source(Source("a\r \nb")) != Source("a\r \nb")
  {
    var s := "a\r \nb";
    CrlfWithout(s);
    assert !HasCrlf(s);
    SplitBareReturn();
    assert TrimLine("a\r ") == "a\r" by {
      assert "a\r "[..2] == "a\r";
    }
    assert EndsInReturn(TrimLine(Split(Crlf(s))[0])) && TrimLine(Split(Crlf(s))[1]) != "";
    IdempotentIff(s);
  }

  // ----- what does not matter ----------------------------------------------------------------------------------

  /** A line as somebody may have typed it: a text, trailing blanks and tabs, either line ending. */
  datatype Typed = Typed(text: string, pad: string, crlf: bool) {
    predicate Valid() {
      && '\n' !in text && '\r' !in text && (text == "" || text[|text| - 1] !in {' ', '\t'})
      && forall i :: 0 <= i < |pad| ==> pad[i] in {' ', '\t'}
    }
  }

  function Written(lines: seq<Typed>): string {
    if lines == [] then ""
    else lines[0].text + lines[0].pad + LineEnd(lines[0].crlf) + Written(lines[1..])
  }

  function Padded(lines: seq<Typed>): (r: seq<string>)
    ensures |r| == |lines| && forall i :: 0 <= i < |r| ==> r[i] == lines[i].text + lines[i].pad
  {
    seq(|lines|, i requires 0 <= i < |lines| => lines[i].text + lines[i].pad)
  }

  function Texts(lines: seq<Typed>): (r: seq<string>)
    ensures |r| == |lines| && forall i :: 0 <= i < |r| ==> r[i] == lines[i].text
  {
    seq(|lines|, i requires 0 <= i < |lines| => lines[i].text)
  }

  lemma CrlfCons(c: char, rest: string)
    requires c != '\r'
    ensures Crlf([c] + rest) == [c] + Crlf(rest)
  {
    assert ([c] + rest)[1..] == rest;
  }

  lemma {:induction false} CrlfHead(line: string, rest: string)
    requires '\r' !in line
    ensures Crlf(line + rest) == line + Crlf(rest)
  {
    if line == "" {
      assert line + rest == rest;
    } else {
      var c, tail := line[0], line[1..];
      CrlfHead(tail, rest);
      assert line + rest == [c] + (tail + rest);
      assert c in line;
      CrlfCons(c, tail + rest);
      hide Crlf;
      assert [c] + (tail + Crlf(rest)) == line + Crlf(rest);
    }
  }

  function LineEnd(crlf: bool): string {
    if crlf then "\r\n" else "\n"
  }

  lemma CrlfEnd(crlf: bool, rest: string)
    ensures Crlf(LineEnd(crlf) + rest) == "\n" + Crlf(rest)
  {
    if crlf {
      assert (LineEnd(crlf) + rest)[2..] == rest;
    } else {
      CrlfCons('\n', rest);
    }
  }

  lemma CrlfLine(line: string, crlf: bool, rest: string)
    requires '\r' !in line
    ensures Crlf(line + LineEnd(crlf) + rest) == line + "\n" + Crlf(rest)
  {
    hide Crlf, LineEnd;
    CrlfHead(line, LineEnd(crlf) + rest);
    CrlfEnd(crlf, rest);
    Assoc(line, LineEnd(crlf), rest);
    Assoc(line, "\n", Crlf(rest));
  }

  lemma {:induction false} WrittenAsLines(lines: seq<Typed>, last: string)
    requires (forall i :: 0 <= i < |lines| ==> lines[i].Valid()) && '\r' !in last
    ensures Crlf(Written(lines) + last) == Unlines(Padded(lines)) + last
  {
    if lines == [] {
      CrlfHead(last, "");
      assert Written(lines) + last == last == last + "" && Unlines(Padded(lines)) + last == last;
    } else {
      WrittenAsLines(lines[1..], last);
      var line, rest := lines[0].text + lines[0].pad, Written(lines[1..]);
      CrlfLine(line, lines[0].crlf, rest + last);
      hide Crlf;
      assert Written(lines) + last == line + LineEnd(lines[0].crlf) + (rest + last);
      assert Padded(lines)[1..] == Padded(lines[1..]);
      Assoc(line + "\n", Unlines(Padded(lines[1..])), last);
    }
  }

  lemma {:induction false} TrimPad(text: string, pad: string)
    requires forall i :: 0 <= i < |pad| ==> IsBlankChar(pad[i])
    ensures TrimLine(text + pad) == TrimLine(text)
  {
    if pad == "" {
      assert text + pad == text;
    } else {
      TrimPad(text, pad[..|pad| - 1]);
      assert (text + pad)[..|text + pad| - 1] == text + pad[..|pad| - 1];
    }
  }

  lemma NothingToTrim(text: string)
    requires text == "" || text[|text| - 1] !in {' ', '\t'}
    ensures TrimLine(text) == text
  {
  }

  lemma PaddedLines(lines: seq<Typed>)
    requires forall i :: 0 <= i < |lines| ==> lines[i].Valid()
    ensures AllLines(Padded(lines))
  {
    forall i | 0 <= i < |lines| ensures NoNewline(Padded(lines)[i]) {
      assert lines[i].Valid();
    }
  }

  lemma TrimPadded(lines: seq<Typed>)
    requires forall i :: 0 <= i < |lines| ==> lines[i].Valid()
    ensures TrimAll(Padded(lines)) == Texts(lines)
  {
    hide TrimLine;
    forall i | 0 <= i < |lines| ensures TrimLine(lines[i].text + lines[i].pad) == lines[i].text {
      assert lines[i].Valid();
      TrimPad(lines[i].text, lines[i].pad);
      NothingToTrim(lines[i].text);
    }
  }

  lemma PaddedSnoc(lines: seq<Typed>, last: Typed)
    requires (forall i :: 0 <= i < |lines| ==> lines[i].Valid()) && last.Valid()
    ensures Padded(lines + [last]) == Padded(lines) + [last.text + last.pad]
    ensures AllLines(Padded(lines)) && NoNewline(last.text + last.pad) && '\r' !in last.text + last.pad
  {
    PaddedLines(lines);
    PaddedLines([last]);
    assert Padded([last])[0] == last.text + last.pad;
  }

  /**
    Line endings and trailing blanks do not show in the normal form: only the texts of the lines do.
    The last line, empty or not, ends without a line break.
   */
  lemma OnlyTextsMatter(lines: seq<Typed>, last: Typed)
    requires (forall i :: 0 <= i < |lines| ==> lines[i].Valid()) && last.Valid()
    ensures Source(Written(lines) + (last.text + last.pad)) == Join(DropEmpty(Texts(lines + [last])))
  {
    hide Source, Crlf, Split, Join, TrimLine, TrimAll, Written, DropEmpty, Unlines, Padded, Texts, NoNewline, AllLines;
    var tail := last.text + last.pad;
    PaddedSnoc(lines, last);
    WrittenAsLines(lines, tail);
    SplitUnlines(Padded(lines), tail);
    SourceIsItsLines(Written(lines) + tail);
    TrimPadded(lines + [last]);
  }
}
