/** Lines of text: splitting at newlines, joining, and that the two undo each other. */
module Text {

  predicate NoNewline(line: string) {
    '\n' !in line
  }

  ghost predicate AllLines(lines: seq<string>) {
    forall i :: 0 <= i < |lines| ==> NoNewline(lines[i])
  }

  /** s.split("\n"): always at least one piece. */
  function Split(s: string): (r: seq<string>)
    ensures |r| >= 1 && AllLines(r)
  {
    if s == "" then [""]
    else
      var rest := Split(s[1..]);
      if s[0] == '\n' then [""] + rest else [[s[0]] + rest[0]] + rest[1..]
  }

  /** lines.join("\n"). */
  function Join(lines: seq<string>): string {
    if lines == [] then "" else if |lines| == 1 then lines[0] else lines[0] + "\n" + Join(lines[1..])
  }

  lemma {:induction false} JoinSplit(s: string)
    ensures Join(Split(s)) == s
  {
    if s != "" {
      JoinSplit(s[1..]);
      var rest := Split(s[1..]);
      if s[0] == '\n' {
        assert ([""] + rest)[1..] == rest;
      } else {
        assert ([[s[0]] + rest[0]] + rest[1..])[1..] == rest[1..];
      }
    }
  }

  lemma {:induction false} SplitHead(line: string, tail: string)
    requires NoNewline(line)
    ensures Split(line) == [line] && Split(line + "\n" + tail) == [line] + Split(tail)
  {
    var s := line + "\n" + tail;
    if line == "" {
      assert s[1..] == tail;
    } else {
      SplitHead(line[1..], tail);
      assert line[0] in line && line == [line[0]] + line[1..];
      assert s[1..] == line[1..] + "\n" + tail;
    }
  }

  lemma {:induction false} SplitJoin(lines: seq<string>)
    requires lines != [] && AllLines(lines)
    ensures Split(Join(lines)) == lines
  {
    SplitHead(lines[0], Join(lines[1..]));
    if |lines| > 1 {
      SplitJoin(lines[1..]);
    }
  }

  /** Every line followed by a newline. */
  function Unlines(lines: seq<string>): string {
    if lines == [] then "" else lines[0] + "\n" + Unlines(lines[1..])
  }

  lemma {:induction false} UnlinesIsJoin(lines: seq<string>)
    ensures lines != [] ==> Unlines(lines) == Join(lines) + "\n"
  {
    if |lines| > 1 {
      UnlinesIsJoin(lines[1..]);
    }
  }

  lemma {:induction false} SplitUnlines(lines: seq<string>, last: string)
    requires AllLines(lines) && NoNewline(last)
    ensures Split(Unlines(lines) + last) == lines + [last]
  {
    if lines == [] {
      SplitHead(last, "");
      assert Unlines(lines) + last == last;
    } else {
      SplitUnlines(lines[1..], last);
      SplitHead(lines[0], Unlines(lines[1..]) + last);
      assert Unlines(lines) + last == lines[0] + "\n" + (Unlines(lines[1..]) + last);
      assert lines == [lines[0]] + lines[1..];
    }
  }

  lemma UnlinesInjective(a: seq<string>, b: seq<string>)
    requires AllLines(a) && AllLines(b) && Unlines(a) == Unlines(b)
    ensures a == b
  {
    UnlinesIsJoin(a);
    UnlinesIsJoin(b);
    if a != [] && b != [] {
      assert Join(a) == Unlines(a)[..|Unlines(a)| - 1] == Join(b);
      SplitJoin(a);
      SplitJoin(b);
    }
  }

  /** What String.trim removes. */
  predicate IsSpace(c: char) {
    c in {' ', '\t', '\n', '\r', '\U{0B}', '\U{0C}', '\U{A0}', '\U{1680}', '\U{2028}', '\U{2029}', '\U{202F}', '\U{205F}', '\U{3000}', '\U{FEFF}'}
    || '\U{2000}' <= c <= '\U{200A}'
  }

  predicate IsBlank(s: string) {
    forall i :: 0 <= i < |s| ==> IsSpace(s[i])
  }

  function TrimEnd(s: string): (r: string)
    ensures r <= s
  {
    if s != "" && IsSpace(s[|s| - 1]) then TrimEnd(s[..|s| - 1]) else s
  }

  function TrimStart(s: string): string {
    if s != "" && IsSpace(s[0]) then TrimStart(s[1..]) else s
  }

  /** s.trim(). */
  function Trim(s: string): string {
    TrimEnd(TrimStart(s))
  }

  lemma {:induction false} TrimEndIs(s: string)
    ensures IsBlank(s[|TrimEnd(s)|..]) && (TrimEnd(s) == "" || !IsSpace(TrimEnd(s)[|TrimEnd(s)| - 1]))
  {
    if s != "" && IsSpace(s[|s| - 1]) {
      var init := s[..|s| - 1];
      TrimEndIs(init);
      assert s[|TrimEnd(s)|..] == init[|TrimEnd(s)|..] + [s[|s| - 1]];
    }
  }

  lemma {:induction false} TrimStartIs(s: string)
    ensures |TrimStart(s)| <= |s| && TrimStart(s) == s[|s| - |TrimStart(s)|..]
    ensures IsBlank(s[..|s| - |TrimStart(s)|]) && (TrimStart(s) == "" || !IsSpace(TrimStart(s)[0]))
  {
    if s != "" && IsSpace(s[0]) {
      TrimStartIs(s[1..]);
      assert s[..|s| - |TrimStart(s)|] == [s[0]] + s[1..][..|s| - 1 - |TrimStart(s)|];
    }
  }

  /** Trimming takes blanks off either end and nothing else, and leaves none there. */
  lemma TrimIs(s: string)
    ensures exists before, after :: s == before + Trim(s) + after && IsBlank(before) && IsBlank(after)
    ensures Trim(s) == "" || (!IsSpace(Trim(s)[0]) && !IsSpace(Trim(s)[|Trim(s)| - 1]))
  {
    var t := TrimStart(s);
    TrimStartIs(s);
    TrimEndIs(t);
    var before, after := s[..|s| - |t|], t[|TrimEnd(t)|..];
    assert s == before + Trim(s) + after;
  }
}
