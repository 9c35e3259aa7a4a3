/** Numbers as texts of decimal digits. */
module Decimals {

  function Decimal(n: nat): (r: string)
    ensures |r| >= 1
  {
    var digit := ['0' + (n % 10) as char];
    if n < 10 then digit else Decimal(n / 10) + digit
  }

  /** The number a decimal text spells. */
  function Number(s: string): int {
    if s == "" then 0 else 10 * Number(s[..|s| - 1]) + (s[|s| - 1] as int - '0' as int)
  }

  lemma {:induction false} DecimalSpells(n: nat)
    ensures Number(Decimal(n)) == n
  {
    var s := Decimal(n);
    if n >= 10 {
      DecimalSpells(n / 10);
      assert s[..|s| - 1] == Decimal(n / 10);
    } else {
      assert s[..|s| - 1] == "";
    }
  }

  function Pow10(d: nat): nat {
    if d == 0 then 1 else 10 * Pow10(d - 1)
  }

  lemma {:induction false} WiderIsLonger(a: nat, b: nat)
    requires a <= b
    ensures |Decimal(a)| <= |Decimal(b)|
  {
    if b >= 10 && a >= 10 {
      WiderIsLonger(a / 10, b / 10);
    }
  }

  lemma {:induction false} WidthAtMost(n: nat, d: nat)
    requires d >= 1 && n < Pow10(d)
    ensures |Decimal(n)| <= d
  {
    if n >= 10 {
      WidthAtMost(n / 10, d - 1);
    }
  }

  lemma {:induction false} WidthAtLeast(n: nat, d: nat)
    requires n >= Pow10(d)
    ensures |Decimal(n)| > d
  {
    if d > 0 {
      assert n / 10 >= Pow10(d - 1);
      WidthAtLeast(n / 10, d - 1);
    }
  }

  predicate IsDigit(c: char) {
    '0' <= c <= '9'
  }

  lemma {:induction false} DecimalDigits(n: nat)
    ensures forall i :: 0 <= i < |Decimal(n)| ==> IsDigit(Decimal(n)[i])
  {
    if n >= 10 {
      DecimalDigits(n / 10);
    }
  }
}
