/** The file names of the blobs of src/journal.ts, and what the sweep's pattern makes of them. */
module BlobNames {
  import opened Options
  import opened Decimals
  import opened JournalLog
  import opened JournalSoundness

  predicate IsHex(c: char) {
    IsDigit(c) || 'a' <= c <= 'f'
  }

  /** The exact shape of a minted id: `20260731T134500123Z-a1b2c3`. */
  predicate LooksLikeId(s: string) {
    && |s| == 26 && s[8] == 'T' && s[18] == 'Z' && s[19] == '-'
    && (forall i :: 0 <= i < 8 ==> IsDigit(s[i])) && (forall i :: 9 <= i < 18 ==> IsDigit(s[i]))
    && (forall i :: 20 <= i < 26 ==> IsHex(s[i]))
  }

  const DIGITS := "0123456789"
  const HEX_DIGITS := "0123456789abcdef"

  ghost predicate AllIn(s: string, chars: string) {
    forall c :: c in s ==> c in chars
  }

  lemma DigitsAre(c: char)
    ensures IsDigit(c) <==> c in DIGITS
    ensures IsHex(c) <==> c in HEX_DIGITS
  {
    if IsDigit(c) {
      assert DIGITS[c as int - '0' as int] == c && HEX_DIGITS[c as int - '0' as int] == c;
    } else if IsHex(c) {
      assert HEX_DIGITS[c as int - 'a' as int + 10] == c;
    }
  }

  /** An id is eight digits, a T, nine digits, a Z, a dash and six lower-case hexadecimal digits. */
  ghost predicate SpellsId(s: string, date: string, time: string, tail: string) {
    && |date| == 8 && |time| == 9 && |tail| == 6 && s == date + "T" + time + "Z-" + tail
    && AllIn(date, DIGITS) && AllIn(time, DIGITS) && AllIn(tail, HEX_DIGITS)
  }

  lemma IdIsSpelled(s: string)
    requires LooksLikeId(s)
    ensures SpellsId(s, s[..8], s[9..18], s[20..])
  {
    forall c ensures (IsDigit(c) <==> c in DIGITS) && (IsHex(c) <==> c in HEX_DIGITS) {
      DigitsAre(c);
    }
    assert s == s[..8] + [s[8]] + s[9..18] + [s[18]] + [s[19]] + s[20..];
  }

  lemma SpelledIsId(s: string, date: string, time: string, tail: string)
    requires SpellsId(s, date, time, tail)
    ensures LooksLikeId(s)
  {
    forall c ensures (IsDigit(c) <==> c in DIGITS) && (IsHex(c) <==> c in HEX_DIGITS) {
      DigitsAre(c);
    }
    assert forall i :: 0 <= i < 8 ==> s[i] == date[i];
    assert forall i :: 9 <= i < 18 ==> s[i] == time[i - 9];
    assert forall i :: 20 <= i < 26 ==> s[i] == tail[i - 20];
  }

  lemma LooksLikeIdIff(s: string)
    ensures LooksLikeId(s) <==> exists date, time, tail :: SpellsId(s, date, time, tail)
  {
    hide LooksLikeId, SpellsId;
    if LooksLikeId(s) {
      IdIsSpelled(s);
    }
    forall date, time, tail | SpellsId(s, date, time, tail) ensures LooksLikeId(s) {
      SpelledIsId(s, date, time, tail);
    }
  }

  function Ending(which: Which): string {
    if which.Before? then ".before.txt" else ".after.txt"
  }

  function PartText(part: Option<nat>): string {
    if part.Some? then ".part" + Decimal(part.value) else ""
  }

  /** The name a blob is written under. */
  function FileName(id: string, part: Option<nat>, which: Which): string {
    id + PartText(part) + Ending(which)
  }

  // ----- the pattern ------------------------------------------------------------------------------------

  /** What the pattern's dot matches. */
  predicate OneLine(s: string) {
    forall i :: 0 <= i < |s| ==> s[i] !in {'\n', '\r', '\U{2028}', '\U{2029}'}
  }

  /** `.part<digits>` or nothing. */
  predicate IsMiddle(s: string) {
    s == "" || (|s| > 5 && s[..5] == ".part" && forall i :: 5 <= i < |s| ==> IsDigit(s[i]))
  }

  ghost predicate MatchesAs(name: string, stem: string, middle: string, which: Which) {
    stem != "" && OneLine(stem) && IsMiddle(middle) && name == stem + middle + Ending(which)
  }

  ghost predicate Matches(name: string, stem: string) {
    exists middle, which :: MatchesAs(name, stem, middle, which)
  }

  /** The pattern is greedy: of all stems it could take it takes the longest. */
  ghost predicate IsStem(name: string, stem: string) {
    Matches(name, stem) && forall other :: Matches(name, other) ==> |other| <= |stem|
  }

  /** A name the sweep unlinks. */
  ghost predicate Unlinks(name: string, safe: set<string>) {
    exists stem :: IsStem(name, stem) && LooksLikeId(stem) && stem !in safe
  }

  // ----- what it does to the names that are written ------------------------------------------------------

  lemma EndingTells(a: string, which: Which)
    ensures var name := a + Ending(which);
            |name| >= 10 && (name[|name| - 10] == 'b' <==> which.Before?) && name[..|name| - |Ending(which)|] == a
  {
    assert ".before.txt"[1] == 'b' && ".after.txt"[0] == '.' && |".before.txt"| == 11 && |".after.txt"| == 10;
  }

  lemma NoOtherEnding(name: string, a: string, b: string, which: Which, other: Which)
    requires name == a + Ending(which) == b + Ending(other)
    ensures which == other && a == b
  {
    hide Ending;
    EndingTells(a, which);
    EndingTells(b, other);
  }

  /** The part number stays in the stem. */
  lemma StemOfFileName(id: string, part: Option<nat>, which: Which)
    requires id != "" && OneLine(id)
    ensures IsStem(FileName(id, part, which), id + PartText(part))
  {
    var name, stem := FileName(id, part, which), id + PartText(part);
    if part.Some? {
      DecimalDigits(part.value);
    }
    assert stem + "" == stem;
    assert OneLine(stem);
    assert MatchesAs(name, stem, "", which);
    forall other | Matches(name, other) ensures |other| <= |stem| {
      var middle, w :| MatchesAs(name, other, middle, w);
      NoOtherEnding(name, stem, other + middle, which, w);
    }
  }

  lemma OnlyStem(name: string, a: string, b: string)
    requires IsStem(name, a) && IsStem(name, b)
    ensures a == b
  {
    var m, w :| MatchesAs(name, a, m, w);
    var n, v :| MatchesAs(name, b, n, v);
    assert a == name[..|a|] && b == name[..|b|];
  }

  lemma IdIsOneLine(id: string)
    requires LooksLikeId(id)
    ensures id != "" && OneLine(id)
  {
    forall i | 0 <= i < |id| ensures id[i] !in {'\n', '\r', '\U{2028}', '\U{2029}'} {
      assert i < 8 || i == 8 || 9 <= i < 18 || i == 18 || i == 19 || IsHex(id[i]);
    }
  }

  /** Of the names a journal writes, the sweep unlinks exactly the whole-entry blobs of ids that are not safe. */
  lemma UnlinksWholeBlobsOnly(id: string, part: Option<nat>, which: Which, safe: set<string>)
    requires LooksLikeId(id)
    ensures Unlinks(FileName(id, part, which), safe) <==> part.None? && id !in safe
  {
    IdIsOneLine(id);
    StemOfFileName(id, part, which);
    var name, stem := FileName(id, part, which), id + PartText(part);
    hide IsStem, FileName, LooksLikeId;
    forall other | IsStem(name, other) ensures other == stem {
      OnlyStem(name, stem, other);
    }
    LongerThanAnId(id, part);
    assert part.None? ==> stem == id;
  }

  lemma LongerThanAnId(id: string, part: Option<nat>)
    requires LooksLikeId(id)
    ensures LooksLikeId(id + PartText(part)) <==> part.None?
  {
    if part.None? {
      assert id + PartText(part) == id;
    }
  }

  /** The sweep of the model is the sweep of the names, however ids are spelled. */
  lemma SweepableIff(spell: Id -> string, b: BlobName, safe: set<Id>)
    requires forall id :: LooksLikeId(spell(id))
    requires forall i, j :: spell(i) == spell(j) ==> i == j
    ensures Sweepable(b, safe) <==> Unlinks(FileName(spell(b.id), b.part, b.which), set id | id in safe :: spell(id))
  {
    hide LooksLikeId;
    UnlinksWholeBlobsOnly(spell(b.id), b.part, b.which, set id | id in safe :: spell(id));
  }
}
