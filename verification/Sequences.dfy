/** Plain facts about sequences and sets. */
module Sequences {

  function Reverse<T>(s: seq<T>): (r: seq<T>)
    ensures |r| == |s| && forall i :: 0 <= i < |s| ==> r[i] == s[|s| - 1 - i]
  {
    if s == [] then [] else Reverse(s[1..]) + [s[0]]
  }

  lemma ReverseTwice<T>(s: seq<T>)
    ensures Reverse(Reverse(s)) == s
  {
  }

  lemma Assoc<T>(a: seq<T>, b: seq<T>, c: seq<T>)
    ensures (a + b) + c == a + (b + c)
  {
  }

  lemma DropOfDrop<T>(s: seq<T>, m: nat, n: nat)
    requires m <= n <= |s|
    ensures s[m..][n - m..] == s[n..]
  {
  }

  predicate Distinct<T(==)>(s: seq<T>) {
    forall i, j :: 0 <= i < j < |s| ==> s[i] != s[j]
  }

  lemma SubsetSize<T>(a: set<T>, b: set<T>)
    requires a <= b
    ensures |a| <= |b|
  {
    assert b == a + (b - a);
  }

  lemma LastIsNew<T>(s: seq<T>, x: T)
    requires Distinct(s) && s != []
    ensures var init, last := s[..|s| - 1], s[|s| - 1];
            Distinct(init) && (x in s <==> x in init || x == last) && !(x in init && x == last)
  {
    assert s == s[..|s| - 1] + [s[|s| - 1]];
  }

  /** How often x occurs in s. */
  function Times<T(==)>(s: seq<T>, x: T): nat {
    multiset(s)[x]
  }

  lemma TimesConcat<T>(a: seq<T>, b: seq<T>, x: T)
    ensures Times(a + b, x) == Times(a, x) + Times(b, x)
  {
  }

  lemma TimesSnoc<T>(a: seq<T>, last: T, x: T)
    ensures Times(a + [last], x) == Times(a, x) + if last == x then 1 else 0
  {
  }
}
