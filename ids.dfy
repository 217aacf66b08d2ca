/**
 * Time-derived identifiers: a prefix followed by the last eight characters of
 * the decimal rendering of `Date.now()` (`'ST' + Date.now().toString().slice(-8)`
 * and its `INV` and `#RC` siblings). The timestamp is a parameter.
 */
module Ids {

  predicate IsDigit(c: char) {
    '0' <= c <= '9'
  }

  predicate AllDigits(s: string) {
    forall i :: 0 <= i < |s| ==> IsDigit(s[i])
  }

  function DigitChar(d: nat): (c: char)
    requires d < 10
    ensures IsDigit(c)
  {
    ('0' as int + d) as char
  }

  function DigitValue(c: char): (d: nat)
    requires IsDigit(c)
    ensures d < 10
  {
    c as int - '0' as int
  }

  /** `n.toString()` for a non-negative integer: its decimal digits, no leading zero. */
  function Decimal(n: nat): (s: string)
    ensures |s| >= 1 && AllDigits(s)
    decreases n
  {
    if n < 10 then [DigitChar(n)] else Decimal(n / 10) + [DigitChar(n % 10)]
  }

  /** The number a string of decimal digits denotes. */
  function ValueOf(s: string): nat
    requires AllDigits(s)
    decreases |s|
  {
    if s == [] then 0 else ValueOf(s[..|s| - 1]) * 10 + DigitValue(s[|s| - 1])
  }

  function Pow10(k: nat): (p: nat)
    ensures p >= 1
  {
    if k == 0 then 1 else 10 * Pow10(k - 1)
  }

  lemma {:induction false} Pow10Monotone(j: nat, k: nat)
    requires j <= k
    ensures Pow10(j) <= Pow10(k)
    decreases k
  {
    if j < k {
      Pow10Monotone(j, k - 1);
    }
  }

  /** Rendering a number in decimal and reading it back gives the number. */
  lemma {:induction false} DecimalRoundTrip(n: nat)
    ensures ValueOf(Decimal(n)) == n
    decreases n
  {
    if n >= 10 {
      DecimalRoundTrip(n / 10);
      var s := Decimal(n);
      assert s[..|s| - 1] == Decimal(n / 10);
    }
  }

  /** A string of k digits denotes a number below 10^k. */
  lemma {:induction false} ValueBound(s: string)
    requires AllDigits(s)
    ensures ValueOf(s) < Pow10(|s|)
    decreases |s|
  {
    if s != [] {
      ValueBound(s[..|s| - 1]);
    }
  }

  /** Multiplying out one more decimal place. */
  lemma ShiftDigit(x: nat, p: nat, y: nat, d: nat)
    ensures (x * p + y) * 10 + d == x * (p * 10) + (y * 10 + d)
  {
  }

  /** Reading a concatenation: the left part is shifted by the width of the right part. */
  lemma {:induction false} ValueOfConcat(a: string, b: string)
    requires AllDigits(a) && AllDigits(b)
    ensures AllDigits(a + b)
    ensures ValueOf(a + b) == ValueOf(a) * Pow10(|b|) + ValueOf(b)
    decreases |b|
  {
    if b != [] {
      var b' := b[..|b| - 1];
      assert (a + b)[..|a + b| - 1] == a + b';
      ValueOfConcat(a, b');
      ShiftDigit(ValueOf(a), Pow10(|b'|), ValueOf(b'), DigitValue(b[|b| - 1]));
    } else {
      assert a + b == a;
    }
  }

  /** `s.slice(-8)`: the last eight characters, or all of a shorter string. */
  function Last8(s: string): (r: string)
    ensures |r| == if |s| <= 8 then |s| else 8
    ensures r == s[|s| - |r|..]
  {
    if |s| <= 8 then s else s[|s| - 8..]
  }

  /** `prefix + Date.now().toString().slice(-8)`. */
  function StampId(prefix: string, stamp: nat): (id: string)
    ensures |prefix| < |id| <= |prefix| + 8
    ensures id[..|prefix|] == prefix
    ensures AllDigits(id[|prefix|..])
  {
    var r := prefix + Last8(Decimal(stamp));
    assert r[|prefix|..] == Last8(Decimal(stamp));
    r
  }

  lemma Pow10Eight()
    ensures Pow10(8) == 100000000
  {
    assert Pow10(4) == 10000;
  }

  /** A number written as q blocks of 10^8 plus a remainder below 10^8 leaves that remainder. */
  lemma ModOfSplit(n: nat, q: nat, r: nat)
    requires r < 100000000 && n == q * 100000000 + r
    ensures n % 100000000 == r
  {
  }

  /** The digits of a stamped id denote the timestamp modulo 10^8. */
  lemma StampIdValue(prefix: string, stamp: nat)
    ensures ValueOf(StampId(prefix, stamp)[|prefix|..]) == stamp % 100000000
  {
    var s := Decimal(stamp);
    var tail := Last8(s);
    assert StampId(prefix, stamp)[|prefix|..] == tail;
    DecimalRoundTrip(stamp);
    Pow10Eight();
    if |s| <= 8 {
      ValueBound(s);
      Pow10Monotone(|s|, 8);
      ModOfSplit(stamp, 0, stamp);
    } else {
      var head := s[..|s| - 8];
      assert s == head + tail;
      ValueOfConcat(head, tail);
      ValueBound(tail);
      ModOfSplit(stamp, ValueOf(head), ValueOf(tail));
    }
  }

  /** Once the clock has eight digits the id is the prefix plus exactly eight digits. */
  lemma StampIdWidth(prefix: string, stamp: nat)
    requires stamp >= 10000000
    ensures |StampId(prefix, stamp)| == |prefix| + 8
  {
    var s := Decimal(stamp);
    DecimalRoundTrip(stamp);
    ValueBound(s);
    assert Pow10(7) == 10000000 by {
      assert Pow10(3) == 1000;
    }
    Pow10Monotone(if |s| < 8 then |s| else 7, 7);
  }
}
