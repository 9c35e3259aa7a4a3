/** The comment and string scanner and the brace matcher of src/safety.ts. */
module CdsScan {
  import opened Sequences

  type Span = (nat, nat)

  const QUOTE := '\''

  // ----- one token at the start of a text ---------------------------------------------------------------------

  /** How far a string goes on, its opening quote read; `''` stays inside, an open end runs to the last character. */
  function StringRest(s: string): (n: nat)
    ensures n <= |s|
  {
    if s == "" then 0
    else if s[0] != QUOTE then 1 + StringRest(s[1..])
    else if |s| > 1 && s[1] == QUOTE then 2 + StringRest(s[2..])
    else 1
  }

  /** A `--` comment, its line break excluded. */
  function LineRest(s: string): (n: nat)
    ensures n <= |s|
  {
    if s == "" || s[0] == '\n' then 0 else 1 + LineRest(s[1..])
  }

  /** The rest of a block comment, its opening read, its close included; an open end runs to the last character. */
  function BlockRest(s: string): (n: nat)
    ensures n <= |s|
  {
    if s == "" then 0
    else if |s| > 1 && s[0] == '*' && s[1] == '/' then 2
    else 1 + BlockRest(s[1..])
  }

  datatype Kind = Plain | InString | InComment

  datatype Token = Token(kind: Kind, length: nat)

  predicate Opens(s: string, a: char, b: char) {
    |s| > 1 && s[0] == a && s[1] == b
  }

  function First(s: string): (t: Token)
    requires s != ""
    ensures 1 <= t.length <= |s|
  {
    if s[0] == QUOTE then Token(InString, 1 + StringRest(s[1..]))
    else if Opens(s, '-', '-') then Token(InComment, LineRest(s))
    else if Opens(s, '/', '*') then Token(InComment, 2 + BlockRest(s[2..]))
    else Token(Plain, 1)
  }

  function Blanks(n: nat): (r: string)
    ensures |r| == n && forall i :: 0 <= i < n ==> r[i] == ' '
  {
    seq(n, _ => ' ')
  }

  /** What becomes of the first token, and where it is if it is a string. */
  function Piece(s: string): (r: string)
    requires s != ""
    ensures |r| == First(s).length
  {
    var t := First(s);
    if t.kind.InComment? then Blanks(t.length) else s[..t.length]
  }

  function OwnSpan(s: string, at: nat): seq<Span>
    requires s != ""
  {
    var t := First(s);
    if t.kind.InString? then [(at, at + t.length)] else []
  }

  /** The text with its comments blanked. */
  function Clean(s: string): (r: string)
    ensures |r| == |s|
  {
    if s == "" then "" else Piece(s) + Clean(s[First(s).length..])
  }

  /** Where its strings are, the text starting at position `at`. */
  function Spans(s: string, at: nat): seq<Span>
    decreases |s|
  {
    if s == "" then [] else OwnSpan(s, at) + Spans(s[First(s).length..], at + First(s).length)
  }

  // ----- the scanner --------------------------------------------------------------------------------------------

  lemma SuffixStep(raw: string, i: nat)
    requires i < |raw|
    ensures var s, j := raw[i..], i + First(raw[i..]).length;
            j <= |raw| && Clean(s) == Piece(s) + Clean(raw[j..]) && Spans(s, i) == OwnSpan(s, i) + Spans(raw[j..], j)
  {
    hide First, Piece, OwnSpan;
    var n := First(raw[i..]).length;
    assert raw[i..][n..] == raw[i + n..];
  }

  lemma Forward(raw: string, i: nat, out: string, spans: seq<Span>)
    requires i < |raw| && Clean(raw) == out + Clean(raw[i..]) && Spans(raw, 0) == spans + Spans(raw[i..], i)
    ensures var s, j := raw[i..], i + First(raw[i..]).length;
            && j <= |raw|
            && Clean(raw) == (out + Piece(s)) + Clean(raw[j..])
            && Spans(raw, 0) == (spans + OwnSpan(s, i)) + Spans(raw[j..], j)
  {
    hide Clean, Spans, First, Piece, OwnSpan;
    var s, j := raw[i..], i + First(raw[i..]).length;
    SuffixStep(raw, i);
    Assoc(out, Piece(s), Clean(raw[j..]));
    Assoc(spans, OwnSpan(s, i), Spans(raw[j..], j));
  }

  /** The branches of the scanner, in terms of the token at hand. */
  lemma FirstAt(raw: string, i: nat)
    requires i < |raw|
    ensures var s := raw[i..];
            if raw[i] == QUOTE then First(s).kind == InString
            else if i + 1 < |raw| && raw[i] == '-' && raw[i + 1] == '-' then First(s) == Token(InComment, LineRest(s))
            else if i + 1 < |raw| && raw[i] == '/' && raw[i + 1] == '*' then First(s) == Token(InComment, 2 + BlockRest(raw[i + 2..]))
            else First(s) == Token(Plain, 1)
  {
    if i + 1 < |raw| {
      assert raw[i..][2..] == raw[i + 2..];
    }
  }

  lemma TokenParts(raw: string, i: nat, t: Token)
    requires i < |raw| && First(raw[i..]) == t
    ensures i + t.length <= |raw|
    ensures Piece(raw[i..]) == if t.kind.InComment? then Blanks(t.length) else raw[i..i + t.length]
    ensures OwnSpan(raw[i..], i) == if t.kind.InString? then [(i, i + t.length)] else []
  {
    hide First;
  }

  method StringEnd(raw: string, start: nat) returns (end: nat)
    requires start < |raw| && raw[start] == QUOTE
    ensures end == start + First(raw[start..]).length
  {
    end := start + 1;
    assert raw[start..][1..] == raw[end..];
    while true
      invariant start < end <= |raw|
      invariant end + StringRest(raw[end..]) == start + First(raw[start..]).length
      decreases |raw| - end
    {
      if end >= |raw| {
        break;
      }
      assert raw[end..][1..] == raw[end + 1..];
      if raw[end] == QUOTE {
        if end + 1 < |raw| && raw[end + 1] == QUOTE {
          assert raw[end..][2..] == raw[end + 2..];
          end := end + 2;
          continue;
        }
        end := end + 1;
        break;
      }
      end := end + 1;
    }
  }

  method LineEnd(raw: string, start: nat) returns (end: nat)
    requires start < |raw|
    ensures end == start + LineRest(raw[start..])
  {
    end := start;
    while end < |raw| && raw[end] != '\n'
      invariant start <= end <= |raw|
      invariant end + LineRest(raw[end..]) == start + LineRest(raw[start..])
    {
      assert raw[end..][1..] == raw[end + 1..];
      end := end + 1;
    }
  }

  method BlockEnd(raw: string, start: nat) returns (end: nat)
    requires start + 2 <= |raw|
    ensures end == start + 2 + BlockRest(raw[start + 2..])
  {
    end := start + 2;
    while end < |raw| && !(raw[end] == '*' && end + 1 < |raw| && raw[end + 1] == '/')
      invariant start + 2 <= end <= |raw|
      invariant end + BlockRest(raw[end..]) == start + 2 + BlockRest(raw[start + 2..])
    {
      assert raw[end..][1..] == raw[end + 1..];
      end := end + 1;
    }
    end := if end + 2 <= |raw| then end + 2 else |raw|;
  }

  /** One round of the loop: the next string, comment or plain character. */
  method NextToken(raw: string, i: nat) returns (piece: string, span: seq<Span>, end: nat)
    requires i < |raw|
    ensures end == i + First(raw[i..]).length <= |raw|
    ensures piece == Piece(raw[i..]) && span == OwnSpan(raw[i..], i)
  {
    hide StringRest, LineRest, BlockRest, First, Piece, OwnSpan;
    FirstAt(raw, i);
    TokenParts(raw, i, First(raw[i..]));
    if raw[i] == QUOTE {
      end := StringEnd(raw, i);
      return raw[i..end], [(i, end)], end;
    }
    if raw[i] == '-' && i + 1 < |raw| && raw[i + 1] == '-' {
      end := LineEnd(raw, i);
      return Blanks(end - i), [], end;
    }
    if raw[i] == '/' && i + 1 < |raw| && raw[i + 1] == '*' {
      end := BlockEnd(raw, i);
      return Blanks(end - i), [], end;
    }
    return [raw[i]], [], i + 1;
  }

  lemma ScanEnds(raw: string)
    ensures raw[0..] == raw && Clean(raw[|raw|..]) == "" && Spans(raw[|raw|..], |raw|) == []
    ensures "" + Clean(raw) == Clean(raw) && [] + Spans(raw, 0) == Spans(raw, 0)
  {
  }

  method ScanCdsText(raw: string) returns (cleaned: string, stringSpans: seq<Span>)
    ensures cleaned == Clean(raw) && stringSpans == Spans(raw, 0)
  {
    hide Clean, Spans, First, Piece, OwnSpan;
    ScanEnds(raw);
    cleaned, stringSpans := "", [];
    var i := 0;
    while i < |raw|
      invariant 0 <= i <= |raw|
      invariant Clean(raw) == cleaned + Clean(raw[i..])
      invariant Spans(raw, 0) == stringSpans + Spans(raw[i..], i)
    {
      Forward(raw, i, cleaned, stringSpans);
      var piece, span, end := NextToken(raw, i);
      cleaned, stringSpans, i := cleaned + piece, stringSpans + span, end;
    }
  }

  // ----- spans are in order and apart -------------------------------------------------------------------------

  ghost predicate InOrder(spans: seq<Span>, from: nat, to: nat) {
    && (forall i :: 0 <= i < |spans| ==> from <= spans[i].0 < spans[i].1 <= to)
    && (forall i, j :: 0 <= i < j < |spans| ==> spans[i].1 <= spans[j].0)
  }

  lemma OneMoreSpan(own: seq<Span>, spans: seq<Span>, from: nat, mid: nat, to: nat)
    requires from < mid && (own == [] || own == [(from, mid)]) && InOrder(spans, mid, to) && mid <= to
    ensures InOrder(own + spans, from, to)
  {
  }

  lemma OwnSpanIs(s: string, at: nat)
    requires s != ""
    ensures OwnSpan(s, at) == [] || OwnSpan(s, at) == [(at, at + First(s).length)]
    ensures Spans(s, at) == OwnSpan(s, at) + Spans(s[First(s).length..], at + First(s).length)
    ensures Clean(s) == Piece(s) + Clean(s[First(s).length..])
  {
    hide First;
  }

  lemma Nothing(at: nat)
    ensures Clean("") == "" && Spans("", at) == [] && InOrder([], at, at)
  {
  }

  lemma {:induction false} SpansInOrder(s: string, at: nat)
    ensures InOrder(Spans(s, at), at, at + |s|)
    decreases |s|
  {
    hide First, Spans, OwnSpan, InOrder;
    if s == "" {
      Nothing(at);
    } else {
      OwnSpanIs(s, at);
      var n := First(s).length;
      SpansInOrder(s[n..], at + n);
      OneMoreSpan(OwnSpan(s, at), Spans(s[n..], at + n), at, at + n, at + |s|);
    }
  }

  // ----- scanning again changes nothing -----------------------------------------------------------------------

  /** Blanking keeps a character or makes it a blank. */
  lemma CleanHead(s: string)
    requires s != ""
    ensures Clean(s)[0] == s[0] || Clean(s)[0] == ' '
  {
  }

  /** A string ends where it did as long as what follows it is kept or blanked. */
  lemma {:induction false} StringRestStays(s: string, tail: string)
    requires var e := StringRest(s); |tail| == |s| - e && (tail != "" ==> tail[0] == s[e] || tail[0] == ' ')
    ensures StringRest(s[..StringRest(s)] + tail) == StringRest(s)
  {
    if s != "" {
      var e := StringRest(s);
      var t := s[..e] + tail;
      if s[0] != QUOTE {
        StringRestStays(s[1..], tail);
        assert t[1..] == s[1..][..e - 1] + tail;
      } else if |s| > 1 && s[1] == QUOTE {
        StringRestStays(s[2..], tail);
        assert t[2..] == s[2..][..e - 2] + tail;
      }
    }
  }

  lemma BlanksCons(n: nat, tail: string)
    requires n > 0
    ensures (Blanks(n) + tail)[0] == ' ' && (Blanks(n) + tail)[1..] == Blanks(n - 1) + tail
    ensures Blanks(n) + tail == " " + (Blanks(n - 1) + tail)
  {
  }

  lemma NoBlanks(tail: string)
    ensures Blanks(0) + tail == tail
  {
  }

  lemma {:induction false} BlanksStay(n: nat, tail: string, at: nat)
    ensures Clean(Blanks(n) + tail) == Blanks(n) + Clean(tail)
    ensures Spans(Blanks(n) + tail, at) == Spans(tail, at + n)
    decreases n
  {
    hide Clean, Spans, Blanks;
    if n == 0 {
      NoBlanks(tail);
      NoBlanks(Clean(tail));
    } else {
      BlanksStay(n - 1, tail, at + 1);
      BlanksCons(n, tail);
      BlanksCons(n, Clean(tail));
      BlankFirst(Blanks(n) + tail, at);
    }
  }

  lemma BlankFirst(s: string, at: nat)
    requires s != "" && s[0] == ' '
    ensures Clean(s) == " " + Clean(s[1..]) && Spans(s, at) == Spans(s[1..], at + 1)
  {
    hide StringRest, LineRest, BlockRest;
    assert s[..1] == " ";
  }

  /** A plain character or a string in front of cleaned text is the token it was. */
  lemma FirstStays(s: string, tail: string)
    requires s != "" && !First(s).kind.InComment?
    requires var n := First(s).length; |tail| == |s| - n && (tail != "" ==> tail[0] == s[n] || tail[0] == ' ')
    ensures First(s[..First(s).length] + tail) == First(s)
  {
    var n := First(s).length;
    var t := s[..n] + tail;
    if s[0] == QUOTE {
      StringRestStays(s[1..], tail);
      assert t[1..] == s[1..][..n - 1] + tail;
    }
  }

  lemma SameToken(u: string, s: string, at: nat)
    requires s != "" && u != "" && First(u) == First(s) && !First(s).kind.InComment?
    ensures var n := First(s).length;
            Clean(u) == u[..n] + Clean(u[n..]) && Spans(u, at) == OwnSpan(s, at) + Spans(u[n..], at + n)
  {
    hide First;
  }

  lemma Seam(front: string, tail: string)
    ensures (front + tail)[|front|..] == tail && (front + tail)[..|front|] == front
  {
  }

  lemma TwiceAcrossToken(s: string, at: nat, rest: string, tail: string)
    requires s != "" && rest == s[First(s).length..] && tail == Clean(rest) && !First(s).kind.InComment?
    ensures var n, u := First(s).length, s[..First(s).length] + tail;
            Clean(u) == s[..n] + Clean(tail) && Spans(u, at) == OwnSpan(s, at) + Spans(tail, at + n)
  {
    var n := First(s).length;
    var front := s[..n];
    if rest != "" {
      CleanHead(rest);
      assert rest[0] == s[n];
    }
    hide Clean, Spans;
    FirstStays(s, tail);
    hide First;
    SameToken(front + tail, s, at);
    Seam(front, tail);
  }

  /** The first token and a rest that is clean already. */
  lemma CleanTwiceOne(s: string, at: nat, rest: string, tail: string, front: string)
    requires s != "" && rest == s[First(s).length..] && tail == Clean(rest) && front == Piece(s)
    requires Clean(tail) == tail && Spans(tail, at + First(s).length) == Spans(rest, at + First(s).length)
    ensures Clean(front + tail) == front + tail
    ensures Spans(front + tail, at) == OwnSpan(s, at) + Spans(rest, at + First(s).length)
  {
    hide First, Clean, Spans, Blanks;
    var n := First(s).length;
    if First(s).kind.InComment? {
      BlanksStay(n, tail, at);
      assert OwnSpan(s, at) == [];
    } else {
      TwiceAcrossToken(s, at, rest, tail);
    }
  }

  lemma {:induction false} CleanTwice(s: string, at: nat)
    ensures Clean(Clean(s)) == Clean(s)
    ensures Spans(Clean(s), at) == Spans(s, at)
    decreases |s|
  {
    hide Clean, Spans, First, Piece, OwnSpan;
    if s == "" {
      Nothing(at);
    } else {
      OwnSpanIs(s, at);
      var n := First(s).length;
      CleanTwice(s[n..], at + n);
      CleanTwiceOne(s, at, s[n..], Clean(s[n..]), Piece(s));
    }
  }

  // ----- character by character ---------------------------------------------------------------------------------

  /** Where a reader that sees one character and the next one stands. */
  datatype Mode = Code | Str | StrEscape | Line | BlockOpen | Block | BlockClose

  /** What the character is, and the mode after it; `next` is None at the end of the text. */
  function Read(mode: Mode, c: char, hasNext: bool, next: char): (Kind, Mode) {
    match mode
    case Code =>
      if c == '\'' then (InString, Str)
      else if hasNext && c == '-' && next == '-' then (InComment, Line)
      else if hasNext && c == '/' && next == '*' then (InComment, BlockOpen)
      else (Plain, Code)
    case Str => if c != '\'' then (InString, Str) else if hasNext && next == '\'' then (InString, StrEscape) else (InString, Code)
    case StrEscape => (InString, Str)
    case Line => if c == '\n' then (Plain, Code) else (InComment, Line)
    case BlockOpen => (InComment, Block)
    case Block => if hasNext && c == '*' && next == '/' then (InComment, BlockClose) else (InComment, Block)
    case BlockClose => (InComment, Code)
  }

  function Kinds(mode: Mode, s: string): (r: seq<Kind>)
    ensures |r| == |s|
    decreases |s|
  {
    if s == "" then []
    else
      var step := Read(mode, s[0], |s| > 1, if |s| > 1 then s[1] else ' ');
      [step.0] + Kinds(step.1, s[1..])
  }

  function Repeat(kind: Kind, n: nat): (r: seq<Kind>)
    ensures |r| == n && forall i :: 0 <= i < n ==> r[i] == kind
  {
    seq(n, _ => kind)
  }

  lemma OneMore(kind: Kind, n: nat, rest: seq<Kind>)
    ensures [kind] + (Repeat(kind, n) + rest) == Repeat(kind, n + 1) + rest
  {
  }

  lemma {:induction false} KindsInString(s: string)
    ensures Kinds(Str, s) == Repeat(InString, StringRest(s)) + Kinds(Code, s[StringRest(s)..])
    decreases |s|
  {
    if s != "" {
      var n := StringRest(s);
      if s[0] != QUOTE {
        KindsInString(s[1..]);
        assert s[1..][n - 1..] == s[n..];
        OneMore(InString, n - 1, Kinds(Code, s[n..]));
      } else if |s| > 1 && s[1] == QUOTE {
        KindsInString(s[2..]);
        assert s[1..][1..] == s[2..] && s[2..][n - 2..] == s[n..];
        OneMore(InString, n - 2, Kinds(Code, s[n..]));
        OneMore(InString, n - 1, Kinds(Code, s[n..]));
      } else {
        assert Repeat(InString, 1) == [InString];
      }
    }
  }

  lemma {:induction false} KindsInLine(s: string)
    ensures Kinds(Line, s) == Repeat(InComment, LineRest(s)) + Kinds(Line, s[LineRest(s)..])
    ensures Kinds(Line, s[LineRest(s)..]) == Kinds(Code, s[LineRest(s)..])
    decreases |s|
  {
    if s == "" || s[0] == '\n' {
      assert s[0..] == s && Repeat(InComment, 0) == [];
    } else {
      var n := LineRest(s);
      KindsInLine(s[1..]);
      assert s[1..][n - 1..] == s[n..];
      OneMore(InComment, n - 1, Kinds(Line, s[n..]));
    }
  }

  lemma KindsAtClose(s: string)
    requires Opens(s, '*', '/')
    ensures BlockRest(s) == 2 && Kinds(Block, s) == Repeat(InComment, 2) + Kinds(Code, s[2..])
  {
    assert s[1..][1..] == s[2..];
    assert Kinds(BlockClose, s[1..]) == [InComment] + Kinds(Code, s[2..]);
    assert Repeat(InComment, 2) == [InComment, InComment];
  }

  lemma KindsBeforeClose(s: string)
    requires s != "" && !Opens(s, '*', '/')
    ensures BlockRest(s) == 1 + BlockRest(s[1..]) && Kinds(Block, s) == [InComment] + Kinds(Block, s[1..])
  {
  }

  lemma {:induction false} KindsInBlock(s: string)
    ensures Kinds(Block, s) == Repeat(InComment, BlockRest(s)) + Kinds(Code, s[BlockRest(s)..])
    decreases |s|
  {
    hide Kinds, BlockRest;
    if s == "" {
      NoKinds();
    } else if Opens(s, '*', '/') {
      KindsAtClose(s);
    } else {
      var n := BlockRest(s);
      KindsBeforeClose(s);
      KindsInBlock(s[1..]);
      assert s[1..][n - 1..] == s[n..];
      OneMore(InComment, n - 1, Kinds(Code, s[n..]));
    }
  }

  lemma NoKinds()
    ensures BlockRest("") == 0 && Kinds(Block, "") == [] == Kinds(Code, ""[0..]) && Repeat(InComment, 0) == []
  {
  }

  /** The reader takes each token of the scanner for what it is. */
  lemma KindsOfFirst(s: string)
    requires s != ""
    ensures Kinds(Code, s) == Repeat(First(s).kind, First(s).length) + Kinds(Code, s[First(s).length..])
  {
    var n := First(s).length;
    if s[0] == QUOTE {
      KindsInString(s[1..]);
      assert s[1..][n - 1..] == s[n..];
      OneMore(InString, n - 1, Kinds(Code, s[n..]));
    } else if Opens(s, '-', '-') {
      KindsInLine(s[1..]);
      assert s[1..][n - 1..] == s[n..];
      OneMore(InComment, n - 1, Kinds(Code, s[n..]));
    } else if Opens(s, '/', '*') {
      KindsInBlock(s[2..]);
      assert s[1..][1..] == s[2..] && s[2..][n - 2..] == s[n..];
      assert Kinds(BlockOpen, s[1..]) == [InComment] + Kinds(Block, s[2..]);
      OneMore(InComment, n - 2, Kinds(Code, s[n..]));
      OneMore(InComment, n - 1, Kinds(Code, s[n..]));
    } else {
      assert Repeat(Plain, 1) == [Plain];
    }
  }

  predicate InsideAny(pos: nat, spans: seq<Span>) {
    exists i :: 0 <= i < |spans| && spans[i].0 <= pos < spans[i].1
  }

  /** The kind of a character: that of the first token, or as in the rest. */
  lemma KindAt(s: string, k: nat)
    requires k < |s|
    ensures k < First(s).length ==> Kinds(Code, s)[k] == First(s).kind
    ensures k >= First(s).length ==> Kinds(Code, s)[k] == Kinds(Code, s[First(s).length..])[k - First(s).length]
  {
    hide First, Kinds;
    KindsOfFirst(s);
  }

  lemma CleanAt(s: string, k: nat)
    requires k < |s|
    ensures k < First(s).length ==> Clean(s)[k] == if First(s).kind.InComment? then ' ' else s[k]
    ensures k >= First(s).length ==> Clean(s)[k] == Clean(s[First(s).length..])[k - First(s).length]
  {
    hide First;
    assert Clean(s) == Piece(s) + Clean(s[First(s).length..]);
    hide Clean;
  }

  /** Exactly the comment characters are blanked. */
  lemma {:induction false} BlanksAreComments(s: string, k: nat)
    requires k < |s|
    ensures Clean(s)[k] == if Kinds(Code, s)[k] == InComment then ' ' else s[k]
    decreases |s|
  {
    hide First, Kinds, Clean;
    var n := First(s).length;
    KindAt(s, k);
    CleanAt(s, k);
    if k >= n {
      BlanksAreComments(s[n..], k - n);
      assert s[n..][k - n] == s[k];
    }
  }

  lemma OutsideLater(spans: seq<Span>, from: nat, to: nat, pos: nat)
    requires InOrder(spans, from, to) && pos < from
    ensures !InsideAny(pos, spans)
  {
  }

  lemma InsideOwn(s: string, at: nat, pos: nat)
    requires s != "" && at <= pos
    ensures InsideAny(pos, OwnSpan(s, at)) <==> First(s).kind.InString? && pos < at + First(s).length
  {
    hide First;
    if First(s).kind.InString? && pos < at + First(s).length {
      assert OwnSpan(s, at)[0].0 <= pos < OwnSpan(s, at)[0].1;
    }
  }

  /** Exactly the string characters lie inside a span. */
  lemma {:induction false} SpansAreStrings(s: string, at: nat, k: nat)
    requires k < |s|
    ensures InsideAny(at + k, Spans(s, at)) <==> Kinds(Code, s)[k] == InString
    decreases |s|
  {
    hide First, Kinds, Spans, InsideAny, InOrder, OwnSpan;
    var n := First(s).length;
    var rest := s[n..];
    OwnSpanIs(s, at);
    KindAt(s, k);
    InsideConcat(at + k, OwnSpan(s, at), Spans(rest, at + n));
    InsideOwn(s, at, at + k);
    if k >= n {
      SpansAreStrings(rest, at + n, k - n);
      assert at + k == (at + n) + (k - n);
    } else {
      SpansInOrder(rest, at + n);
      OutsideLater(Spans(rest, at + n), at + n, at + n + |rest|, at + k);
    }
  }

  lemma InsideConcat(pos: nat, a: seq<Span>, b: seq<Span>)
    ensures InsideAny(pos, a + b) <==> InsideAny(pos, a) || InsideAny(pos, b)
  {
    if InsideAny(pos, a) {
      var i :| 0 <= i < |a| && a[i].0 <= pos < a[i].1;
      assert (a + b)[i] == a[i];
    }
    if InsideAny(pos, b) {
      var i :| 0 <= i < |b| && b[i].0 <= pos < b[i].1;
      assert (a + b)[|a| + i] == b[i];
    }
    if InsideAny(pos, a + b) {
      var i :| 0 <= i < |a + b| && (a + b)[i].0 <= pos < (a + b)[i].1;
      assert i >= |a| ==> b[i - |a|] == (a + b)[i];
    }
  }

  // ----- matching braces ------------------------------------------------------------------------------------------

  /** What the character at k adds to the nesting depth. */
  function Weight(text: string, spans: seq<Span>, k: nat): int
    requires k < |text|
  {
    if InsideAny(k, spans) then 0 else if text[k] == '{' then 1 else if text[k] == '}' then -1 else 0
  }

  /** The nesting depth before position k, the brace at `from` opened. */
  function Depth(text: string, spans: seq<Span>, from: nat, k: nat): int
    requires from < k <= |text|
    decreases k
  {
    if k == from + 1 then 1 else Depth(text, spans, from, k - 1) + Weight(text, spans, k - 1)
  }

  lemma {:induction false} DepthAcrossString(text: string, spans: seq<Span>, from: nat, i: nat, j: nat)
    requires from < i <= j <= |text| && forall k :: i <= k < j ==> InsideAny(k, spans)
    ensures Depth(text, spans, from, j) == Depth(text, spans, from, i)
    decreases j
  {
    if j > i {
      DepthAcrossString(text, spans, from, i, j - 1);
    }
  }

  method SpanEnd(pos: nat, spans: seq<Span>) returns (inside: bool, end: nat)
    ensures inside <==> InsideAny(pos, spans)
    ensures inside ==> pos < end && forall k :: pos <= k < end ==> InsideAny(k, spans)
  {
    for i := 0 to |spans|
      invariant forall j :: 0 <= j < i ==> !(spans[j].0 <= pos < spans[j].1)
    {
      if spans[i].0 <= pos < spans[i].1 {
        return true, spans[i].1;
      }
    }
    return false, 0;
  }

  /** The first position at which the depth is back to zero. */
  method FindMatchingBrace(text: string, openIndex: nat, stringSpans: seq<Span>) returns (close: int)
    requires openIndex < |text|
    ensures close >= 0 ==>
      && openIndex < close < |text| && text[close] == '}' && !InsideAny(close, stringSpans)
      && Depth(text, stringSpans, openIndex, close + 1) == 0
      && forall k :: openIndex < k <= close ==> Depth(text, stringSpans, openIndex, k) > 0
    ensures close < 0 <==> forall k :: openIndex < k <= |text| ==> Depth(text, stringSpans, openIndex, k) > 0
  {
    var depth, i := 1, openIndex + 1;
    while i < |text|
      invariant openIndex < i
      invariant i <= |text| ==> depth == Depth(text, stringSpans, openIndex, i) && depth > 0
      invariant forall k :: openIndex < k <= i && k <= |text| ==> Depth(text, stringSpans, openIndex, k) > 0
      decreases |text| - i
    {
      var inside, end := SpanEnd(i, stringSpans);
      if inside {
        forall k | i < k <= end && k <= |text| ensures Depth(text, stringSpans, openIndex, k) == depth {
          DepthAcrossString(text, stringSpans, openIndex, i, k);
        }
        i := end;
        continue;
      }
      if text[i] == '{' {
        depth := depth + 1;
      } else if text[i] == '}' {
        depth := depth - 1;
        if depth == 0 {
          return i;
        }
      }
      i := i + 1;
    }
    close := -1;
  }
}
