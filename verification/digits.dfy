/** Decimal text of natural numbers: Python's `str(n)` for n >= 0 and
    `int(s)` on a string of decimal digits. */
module Digits {

  predicate IsDigit(ch: char) {
    '0' <= ch <= '9'
  }

  predicate AllDigits(s: string) {
    forall i :: 0 <= i < |s| ==> IsDigit(s[i])
  }

  function DigitChar(d: nat): (ch: char)
    requires d < 10
    ensures IsDigit(ch)
  {
    (48 + d) as char
  }

  function DigitValue(ch: char): (d: nat)
    requires IsDigit(ch)
    ensures d < 10
  {
    ch as int - 48
  }

  function Pow10(k: nat): (p: nat)
    ensures p >= 1
  {
    if k == 0 then 1 else 10 * Pow10(k - 1)
  }

  /** `str(n)`: most significant digit first, no leading zero. */
  function Decimal(n: nat): (s: string)
    ensures AllDigits(s) && |s| >= 1
    ensures s[0] == '0' <==> n == 0
    decreases n
  {
    if n < 10 then [DigitChar(n)] else Decimal(n / 10) + [DigitChar(n % 10)]
  }

  /** `int(s)` for a string of digits (the empty string reads as 0 here;
      callers that can see one model Python's ValueError themselves). */
  function Parse(s: string): nat
    requires AllDigits(s)
  {
    if s == [] then 0 else Parse(s[..|s| - 1]) * 10 + DigitValue(s[|s| - 1])
  }

  lemma {:induction false} ParseDecimal(n: nat)
    ensures Parse(Decimal(n)) == n
    decreases n
  {
    if n >= 10 {
      var s := Decimal(n);
      assert s[..|s| - 1] == Decimal(n / 10);
      ParseDecimal(n / 10);
    }
  }

  /** Reading a concatenation shifts the head by the tail's width. */
  lemma {:induction false} ParseAppend(a: string, b: string)
    requires AllDigits(a) && AllDigits(b)
    ensures AllDigits(a + b)
    ensures Parse(a + b) == Parse(a) * Pow10(|b|) + Parse(b)
    decreases |b|
  {
    assert AllDigits(a + b);
    if b == [] {
      assert a + b == a;
    } else {
      var b' := b[..|b| - 1];
      var ab := a + b;
      assert ab[..|ab| - 1] == a + b';
      assert ab[|ab| - 1] == b[|b| - 1];
      ParseAppend(a, b');
      var x, q, d, p := Parse(a), Parse(b'), DigitValue(b[|b| - 1]), Pow10(|b'|);
      assert Parse(ab) == Parse(a + b') * 10 + d;
      assert Pow10(|b|) == 10 * p;
      assert Parse(b) == q * 10 + d;
      MulShift(x, p, q, d);
    }
  }

  lemma MulShift(x: int, p: int, q: int, d: int)
    ensures (x * p + q) * 10 + d == x * (10 * p) + (q * 10 + d)
  {
  }

  /** A string of k digits reads as less than 10^k. */
  lemma {:induction false} ParseBound(s: string)
    requires AllDigits(s)
    ensures Parse(s) < Pow10(|s|)
    decreases |s|
  {
    if s != [] {
      ParseBound(s[..|s| - 1]);
    }
  }

  /** A string of k digits with a non-zero lead reads as at least 10^(k-1). */
  lemma {:induction false} ParseLeadBound(s: string)
    requires AllDigits(s) && |s| >= 1 && s[0] != '0'
    ensures Parse(s) >= Pow10(|s| - 1)
    decreases |s|
  {
    if |s| > 1 {
      var s' := s[..|s| - 1];
      assert s'[0] == s[0];
      ParseLeadBound(s');
    }
  }

  /** `str(int(s)) == s` for digit strings without a leading zero. */
  lemma {:induction false} DecimalParse(s: string)
    requires AllDigits(s) && |s| >= 1 && s[0] != '0'
    ensures Decimal(Parse(s)) == s
    decreases |s|
  {
    if |s| == 1 {
      assert Parse(s) == DigitValue(s[0]) by { assert s[..0] == []; }
      assert [DigitChar(DigitValue(s[0]))] == s;
    } else {
      var s' := s[..|s| - 1];
      assert s'[0] == s[0];
      ParseLeadBound(s');
      DecimalParse(s');
      var n := Parse(s);
      var d := DigitValue(s[|s| - 1]);
      assert n == Parse(s') * 10 + d;
      assert n / 10 == Parse(s') && n % 10 == d;
      assert DigitChar(d) == s[|s| - 1];
      assert s == s' + [s[|s| - 1]];
    }
  }

  /** The number of decimal digits of n (at least one). */
  function NumDigits(n: nat): (k: nat)
    ensures k >= 1
  {
    if n < 10 then 1 else 1 + NumDigits(n / 10)
  }

  lemma {:induction false} DecimalLength(n: nat)
    ensures |Decimal(n)| == NumDigits(n)
    decreases n
  {
    if n >= 10 {
      DecimalLength(n / 10);
    }
  }

  lemma {:induction false} Pow10Add(a: nat, b: nat)
    ensures Pow10(a + b) == Pow10(a) * Pow10(b)
    decreases a
  {
    if a > 0 {
      Pow10Add(a - 1, b);
      assert Pow10(a + b) == 10 * Pow10(a - 1 + b);
    }
  }

  /** The width of `str(n)` for the ranges the codec relies on. */
  lemma DecimalWidth(n: nat)
    ensures n < 10 ==> |Decimal(n)| == 1
    ensures 10 <= n < 100 ==> |Decimal(n)| == 2
    ensures 100 <= n < 1000 ==> |Decimal(n)| == 3
    ensures 10000 <= n < 100000 ==> |Decimal(n)| == 5
    ensures 100000 <= n < 1000000 ==> |Decimal(n)| == 6
  {
    var s := Decimal(n);
    if n >= 1 {
      assert s[0] != '0';
      ParseDecimal(n);
      ParseBound(s);
      ParseLeadBound(s);
      PowMonotone(|s|);
    }
  }

  lemma PowMonotone(k: nat)
    ensures k >= 1 ==> Pow10(k) >= 10
    ensures k >= 2 ==> Pow10(k) >= 100
    ensures k >= 3 ==> Pow10(k) >= 1000
    ensures k >= 4 ==> Pow10(k) >= 10000
    ensures k >= 5 ==> Pow10(k) >= 100000
    ensures k >= 6 ==> Pow10(k) >= 1000000
    ensures k <= 6 ==> Pow10(k) <= 1000000
    ensures k == 1 ==> Pow10(k) == 10
    ensures k == 2 ==> Pow10(k) == 100
    ensures k == 3 ==> Pow10(k) == 1000
    ensures k == 4 ==> Pow10(k) == 10000
    ensures k == 5 ==> Pow10(k) == 100000
  {
    if k > 0 {
      PowMonotone(k - 1);
    }
  }
}
