/** The small Option type used by the parsers of this project. */
module Options {
  datatype Option<+T> = None | Some(value: T)
}

/**
 * Decimal rendering of non-negative integers, as a JavaScript template
 * literal `${i}` renders a loop counter, and the matching parser.
 * Logical names (`publicsubnet${i}`) and CIDR strings (`10.0.${i}.0/24`)
 * are built from this rendering.
 */
module Numerals {
  import opened Options

  predicate IsDigit(c: char) {
    '0' <= c <= '9'
  }

  predicate AllDigits(s: string) {
    forall k | 0 <= k < |s| :: IsDigit(s[k])
  }

  function DigitChar(d: nat): (c: char)
    requires d < 10
    ensures IsDigit(c) && c as int - '0' as int == d
  {
    (d + '0' as int) as char
  }

  function DigitValue(c: char): (d: nat)
    requires IsDigit(c)
    ensures d < 10 && DigitChar(d) == c
  {
    c as int - '0' as int
  }

  /** The decimal digits of n, most significant first, with no leading zero. */
  function Decimal(n: nat): string
    decreases n
  {
    if n < 10 then [DigitChar(n)] else Decimal(n / 10) + [DigitChar(n % 10)]
  }

  /** The number a string of digits denotes. */
  function Value(s: string): nat
    requires AllDigits(s)
    decreases |s|
  {
    if s == [] then 0 else Value(s[..|s| - 1]) * 10 + DigitValue(s[|s| - 1])
  }

  /** Reading back a rendered number gives the number. */
  lemma {:induction false} ValueOfDecimal(n: nat)
    ensures |Decimal(n)| >= 1 && AllDigits(Decimal(n))
    ensures Value(Decimal(n)) == n
    decreases n
  {
    if n >= 10 {
      var s := Decimal(n);
      ValueOfDecimal(n / 10);
      assert s[..|s| - 1] == Decimal(n / 10);
    }
  }

  /** Distinct numbers have distinct renderings. */
  lemma DecimalInjective(m: nat, n: nat)
    ensures Decimal(m) == Decimal(n) <==> m == n
  {
    ValueOfDecimal(m);
    ValueOfDecimal(n);
  }

  /** The length of the longest prefix of s made of digits. */
  function LeadingDigits(s: string): (k: nat)
    ensures k <= |s| && AllDigits(s[..k])
    ensures k < |s| ==> !IsDigit(s[k])
    decreases |s|
  {
    if s == [] || !IsDigit(s[0]) then 0
    else
      var k := 1 + LeadingDigits(s[1..]);
      assert s[..k] == [s[0]] + s[1..][..k - 1];
      k
  }

  /** Reads the number at the front of s and returns it with the rest of s. */
  function ParseNumber(s: string): Option<(nat, string)> {
    var k := LeadingDigits(s);
    if k == 0 then None else Some((Value(s[..k]), s[k..]))
  }

  lemma {:induction false} LeadingDigitsOfDigits(d: string, rest: string)
    requires AllDigits(d)
    requires rest == [] || !IsDigit(rest[0])
    ensures LeadingDigits(d + rest) == |d|
    decreases |d|
  {
    if d != [] {
      assert (d + rest)[1..] == d[1..] + rest;
      LeadingDigitsOfDigits(d[1..], rest);
    }
  }

  /** A rendered number followed by a non-digit parses back to the number. */
  lemma ParseDecimal(n: nat, rest: string)
    requires rest == [] || !IsDigit(rest[0])
    ensures ParseNumber(Decimal(n) + rest) == Some((n, rest))
  {
    var d := Decimal(n);
    ValueOfDecimal(n);
    LeadingDigitsOfDigits(d, rest);
    assert (d + rest)[..|d|] == d;
    assert (d + rest)[|d|..] == rest;
    ValueOfDecimal(n);
  }

  /** Names built from the same prefix and two counters are equal only for equal counters. */
  lemma SamePrefixNames(p: string, i: nat, j: nat)
    ensures p + Decimal(i) == p + Decimal(j) <==> i == j
  {
    if p + Decimal(i) == p + Decimal(j) {
      assert Decimal(i) == (p + Decimal(i))[|p|..];
      assert Decimal(j) == (p + Decimal(j))[|p|..];
      DecimalInjective(i, j);
    }
  }

  /** Names whose prefixes differ at some position inside both differ, whatever follows. */
  lemma DivergingPrefixNames(p: string, q: string, k: nat, s: string, t: string)
    requires k < |p| && k < |q| && p[k] != q[k]
    ensures p + s != q + t
  {
    assert (p + s)[k] == p[k];
    assert (q + t)[k] == q[k];
  }
}
