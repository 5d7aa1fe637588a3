/**
 Fixed-width big-endian numerals. The same numerals write a UUID as 16 bytes and
 as 32 hexadecimal digits, and an f32 bit pattern as 4 bytes; this module proves
 once that they decode and that they keep the order of the numbers.
 */
module Numerals {

  function Pow(base: nat, width: nat): nat {
    if width == 0 then 1 else base * Pow(base, width - 1)
  }

  /** The `width` low-order digits of `n`, most significant first. */
  function Digits(n: nat, base: nat, width: nat): (d: seq<nat>)
    requires base >= 2
    ensures |d| == width
    ensures forall i :: 0 <= i < width ==> d[i] < base
  {
    if width == 0 then [] else Digits(n / base, base, width - 1) + [n % base]
  }

  function Value(d: seq<nat>, base: nat): nat {
    if d == [] then 0 else Value(d[..|d| - 1], base) * base + d[|d| - 1]
  }

  lemma CancelFactor(base: nat, a: nat, b: nat)
    requires base >= 2 && base * a < base * b
    ensures a < b
  {
  }

  lemma DivisionParts(n: nat, base: nat)
    requires base >= 2
    ensures n == base * (n / base) + n % base
    ensures n / base * base == base * (n / base)
  {
  }

  lemma QuotientBelow(n: nat, base: nat, bound: nat)
    requires base >= 2 && n < base * bound
    ensures n / base < bound
  {
    DivisionParts(n, base);
    CancelFactor(base, n / base, bound);
  }

  lemma DigitsFront(n: nat, base: nat, width: nat)
    requires base >= 2 && width > 0
    ensures Digits(n, base, width)[..width - 1] == Digits(n / base, base, width - 1)
    ensures Digits(n, base, width)[width - 1] == n % base
  {
  }

  /** Reading back a number written with enough digits gives the number. */
  lemma {:induction false} ValueOfDigits(n: nat, base: nat, width: nat)
    requires base >= 2 && n < Pow(base, width)
    ensures Value(Digits(n, base, width), base) == n
  {
    if width == 0 {
    } else {
      QuotientBelow(n, base, Pow(base, width - 1));
      ValueOfDigits(n / base, base, width - 1);
      DigitsFront(n, base, width);
      DivisionParts(n, base);
    }
  }

  lemma QuotientUnique(high: nat, last: nat, base: nat)
    requires base >= 2 && last < base
    ensures (high * base + last) / base == high && (high * base + last) % base == last
  {
    var n := high * base + last;
    DivisionParts(n, base);
    var q, r := n / base, n % base;
    assert base * (q - high) == last - r;
    assert 0 - base < last - r < base;
    NoSmallMultiple(base, q - high);
  }

  lemma NoSmallMultiple(base: nat, k: int)
    requires base >= 2 && 0 - base < base * k < base
    ensures k == 0
  {
  }

  lemma SplitLast(high: nat, last: nat, base: nat, bound: nat)
    requires base >= 2 && last < base && high < bound
    ensures high * base + last < base * bound
    ensures (high * base + last) / base == high && (high * base + last) % base == last
  {
    assert (high + 1) * base <= bound * base;
    QuotientUnique(high, last, base);
  }

  /** Writing the value of a digit string gives the digit string back. */
  lemma {:induction false} DigitsOfValue(d: seq<nat>, base: nat)
    requires base >= 2 && forall i :: 0 <= i < |d| ==> d[i] < base
    ensures Value(d, base) < Pow(base, |d|)
    ensures Digits(Value(d, base), base, |d|) == d
  {
    if d == [] {
    } else {
      var front, last := d[..|d| - 1], d[|d| - 1];
      DigitsOfValue(front, base);
      SplitLast(Value(front, base), last, base, Pow(base, |front|));
      assert d == front + [last];
    }
  }

  /** `a` and `b` first differ at `k`, where `a` is smaller. */
  predicate FirstDifference(a: seq<nat>, b: seq<nat>, k: nat) {
    k < |a| && k < |b| && a[..k] == b[..k] && a[k] < b[k]
  }

  lemma QuotientMonotone(n: nat, m: nat, base: nat)
    requires base >= 2 && n < m
    ensures n / base < m / base || (n / base == m / base && n % base < m % base)
  {
    DivisionParts(n, base);
    DivisionParts(m, base);
    var q, r := n / base, m / base;
    assert base * (q - r) < base;
    NotAbove(base, q - r);
  }

  lemma NotAbove(base: nat, k: int)
    requires base >= 2 && base * k < base
    ensures k <= 0
  {
  }

  /** The smaller of two numbers of one width has the smaller digit at the first difference. */
  lemma {:induction false} SmallerNumberSmallerDigits(n: nat, m: nat, base: nat, width: nat) returns (k: nat)
    requires base >= 2 && n < m < Pow(base, width)
    ensures FirstDifference(Digits(n, base, width), Digits(m, base, width), k)
    decreases width
  {
    assert width > 0;
    QuotientBelow(m, base, Pow(base, width - 1));
    QuotientMonotone(n, m, base);
    var q, r := n / base, m / base;
    if q < r {
      k := SmallerNumberSmallerDigits(q, r, base, width - 1);
      FirstDifferenceInFront(n, m, base, width, k);
    } else {
      k := width - 1;
      FirstDifferenceAtEnd(n, m, base, width);
    }
  }

  lemma FirstDifferenceInFront(n: nat, m: nat, base: nat, width: nat, k: nat)
    requires base >= 2 && width > 0
    requires FirstDifference(Digits(n / base, base, width - 1), Digits(m / base, base, width - 1), k)
    ensures FirstDifference(Digits(n, base, width), Digits(m, base, width), k)
  {
    DigitsFront(n, base, width);
    DigitsFront(m, base, width);
    PrefixOfFront(Digits(n, base, width), k);
    PrefixOfFront(Digits(m, base, width), k);
  }

  lemma FirstDifferenceAtEnd(n: nat, m: nat, base: nat, width: nat)
    requires base >= 2 && width > 0
    requires n / base == m / base && n % base < m % base
    ensures FirstDifference(Digits(n, base, width), Digits(m, base, width), width - 1)
  {
    DigitsFront(n, base, width);
    DigitsFront(m, base, width);
  }

  lemma PrefixOfFront(d: seq<nat>, k: nat)
    requires k < |d|
    ensures d[..|d| - 1][..k] == d[..k]
    ensures k < |d| - 1 ==> d[..|d| - 1][k] == d[k]
  {
  }
}
