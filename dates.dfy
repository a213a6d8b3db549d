/**
 * The `Date <= cutoff` comparison of make_graph. The cutoff is a
 * 'YYYY-MM-DD' string and the dates are compared as Python strings:
 * lexicographically by code point, a proper prefix before its extensions.
 */
module Dates {

  /** Python's `a <= b` on str: a prefix of `b` comes first, and `b` does not come before its proper prefixes. */
  predicate LexLeq(a: string, b: string)
    ensures a <= b ==> LexLeq(a, b)
    ensures b < a ==> !LexLeq(a, b)
  {
    if a == [] then true
    else if b == [] then false
    else if a[0] == b[0] then LexLeq(a[1..], b[1..])
    else a[0] < b[0]
  }

  /** Otherwise the first position where the strings differ decides, by code point. */
  lemma {:induction false} LexLeqFirstDifference(a: string, b: string, k: nat)
    requires k < |a| && k < |b| && a[..k] == b[..k] && a[k] != b[k]
    ensures LexLeq(a, b) <==> a[k] < b[k]
  {
    if k > 0 {
      assert a[0] == a[..k][0] == b[..k][0] == b[0];
      assert a[1..][..k - 1] == a[..k][1..] == b[..k][1..] == b[1..][..k - 1];
      LexLeqFirstDifference(a[1..], b[1..], k - 1);
    }
  }

  // String `<=` is a total order: reflexive, antisymmetric, transitive, total.

  lemma {:induction false} LexLeqReflexive(a: string)
    ensures LexLeq(a, a)
  {
    if a != [] {
      LexLeqReflexive(a[1..]);
    }
  }

  lemma {:induction false} LexLeqAntisymmetric(a: string, b: string)
    requires LexLeq(a, b) && LexLeq(b, a)
    ensures a == b
  {
    if a != [] && b != [] {
      LexLeqAntisymmetric(a[1..], b[1..]);
      assert a == [a[0]] + a[1..] && b == [b[0]] + b[1..];
    }
  }

  lemma {:induction false} LexLeqTransitive(a: string, b: string, c: string)
    requires LexLeq(a, b) && LexLeq(b, c)
    ensures LexLeq(a, c)
  {
    if a != [] && b != [] && c != [] && a[0] == b[0] && b[0] == c[0] {
      LexLeqTransitive(a[1..], b[1..], c[1..]);
    }
  }

  lemma {:induction false} LexLeqTotal(a: string, b: string)
    ensures LexLeq(a, b) || LexLeq(b, a)
  {
    if a != [] && b != [] && a[0] == b[0] {
      LexLeqTotal(a[1..], b[1..]);
    }
  }

  /** Comparing two concatenations whose first parts have equal length: the first parts decide unless they are equal. */
  lemma {:induction false} LexLeqConcat(x: string, u: string, y: string, v: string)
    requires |x| == |y|
    ensures LexLeq(x + u, y + v) == if x == y then LexLeq(u, v) else LexLeq(x, y)
  {
    if x == [] {
      assert x + u == u && y + v == v;
    } else {
      assert (x + u)[1..] == x[1..] + u;
      assert (y + v)[1..] == y[1..] + v;
      LexLeqConcat(x[1..], u, y[1..], v);
      assert x == [x[0]] + x[1..] && y == [y[0]] + y[1..];
    }
  }

  predicate IsDigit(c: char)
  {
    '0' <= c <= '9'
  }

  predicate AllDigits(s: string)
  {
    forall i :: 0 <= i < |s| ==> IsDigit(s[i])
  }

  function Pow10(n: nat): nat
  {
    if n == 0 then 1 else 10 * Pow10(n - 1)
  }

  /** The number a string of decimal digits denotes. */
  function DigitsValue(s: string): (v: nat)
    requires AllDigits(s)
    ensures v < Pow10(|s|)
  {
    if s == [] then 0
    else
      var d := (s[0] as int) - ('0' as int);
      var rest := DigitsValue(s[1..]);
      LeadingDigitBound(d, rest, Pow10(|s| - 1));
      d * Pow10(|s| - 1) + rest
  }

  /** A leading digit in front of a lower part stays below the next power of ten. */
  lemma LeadingDigitBound(d: nat, rest: nat, p: nat)
    requires d <= 9 && rest < p
    ensures d * p + rest < 10 * p
  {
    assert d * p <= 9 * p;
  }

  /** On digit strings of one length, string order is numeric order. */
  lemma {:induction false} DigitsOrder(a: string, b: string)
    requires AllDigits(a) && AllDigits(b) && |a| == |b|
    ensures LexLeq(a, b) <==> DigitsValue(a) <= DigitsValue(b)
    ensures a == b <==> DigitsValue(a) == DigitsValue(b)
  {
    if a != [] {
      DigitsOrder(a[1..], b[1..]);
      var p := Pow10(|a| - 1);
      var da := (a[0] as int) - ('0' as int);
      var db := (b[0] as int) - ('0' as int);
      LeadingDigitDecides(da, DigitsValue(a[1..]), db, DigitsValue(b[1..]), p);
      LeadingDigitDecides(db, DigitsValue(b[1..]), da, DigitsValue(a[1..]), p);
      assert a == [a[0]] + a[1..] && b == [b[0]] + b[1..];
    }
  }

  /** A smaller leading digit makes a smaller number, whatever the lower digits. */
  lemma LeadingDigitDecides(da: nat, ra: nat, db: nat, rb: nat, p: nat)
    requires ra < p && rb < p
    ensures da < db ==> da * p + ra < db * p + rb
    ensures da == db ==> (da * p + ra <= db * p + rb <==> ra <= rb)
  {
    if da < db {
      assert (da + 1) * p <= db * p;
    }
  }

  /** A 'YYYY-MM-DD' string, as strftime('%Y-%m-%d') writes one. */
  predicate IsIsoDate(s: string)
  {
    |s| == 10 && s[4] == '-' && s[7] == '-' &&
    AllDigits(s[..4]) && AllDigits(s[5..7]) && AllDigits(s[8..])
  }

  function Year(s: string): (y: nat)
    requires IsIsoDate(s)
    ensures y < 10000
  {
    DigitsValue(s[..4])
  }

  function Month(s: string): (m: nat)
    requires IsIsoDate(s)
    ensures m < 100
  {
    DigitsValue(s[5..7])
  }

  function Day(s: string): (d: nat)
    requires IsIsoDate(s)
    ensures d < 100
  {
    DigitsValue(s[8..])
  }

  /** Position of a date on the calendar, year first, then month, then day. */
  function DateKey(s: string): nat
    requires IsIsoDate(s)
  {
    Year(s) * 10000 + Month(s) * 100 + Day(s)
  }

  /** A 'YYYY-MM-DD' string is its year, dash, month, dash and day texts put together. */
  lemma IsoDateParts(s: string)
    requires |s| == 10
    ensures s == s[..4] + s[4..]
    ensures s[4..] == s[4..5] + s[5..]
    ensures s[5..] == s[5..7] + s[7..]
    ensures s[7..] == s[7..8] + s[8..]
  {
  }

  /** Two 'YYYY-MM-DD' strings compare by year text, then month text, then day text. */
  lemma IsoDateFields(a: string, b: string)
    requires IsIsoDate(a) && IsIsoDate(b)
    ensures LexLeq(a, b) ==
      if a[..4] != b[..4] then LexLeq(a[..4], b[..4])
      else if a[5..7] != b[5..7] then LexLeq(a[5..7], b[5..7])
      else LexLeq(a[8..], b[8..])
  {
    IsoDateParts(a);
    IsoDateParts(b);
    assert a[4..5] == b[4..5] && a[7..8] == b[7..8];
    LexLeqConcat(a[..4], a[4..], b[..4], b[4..]);
    LexLeqConcat(a[4..5], a[5..], b[4..5], b[5..]);
    LexLeqConcat(a[5..7], a[7..], b[5..7], b[7..]);
    LexLeqConcat(a[7..8], a[8..], b[7..8], b[8..]);
  }

  /** On 'YYYY-MM-DD' strings the string comparison is the chronological one. */
  lemma IsoDateOrder(a: string, b: string)
    requires IsIsoDate(a) && IsIsoDate(b)
    ensures LexLeq(a, b) <==> DateKey(a) <= DateKey(b)
  {
    IsoDateFields(a, b);
    DigitsOrder(a[..4], b[..4]);
    DigitsOrder(a[5..7], b[5..7]);
    DigitsOrder(a[8..], b[8..]);
  }

  /** IsoDateOrder for every pair of 'YYYY-MM-DD' strings at once. */
  lemma IsoDateOrderAll()
    ensures forall a, b :: IsIsoDate(a) && IsIsoDate(b) ==> (LexLeq(a, b) <==> DateKey(a) <= DateKey(b))
  {
    forall a, b | IsIsoDate(a) && IsIsoDate(b)
      ensures LexLeq(a, b) <==> DateKey(a) <= DateKey(b)
    {
      IsoDateOrder(a, b);
    }
  }
}
