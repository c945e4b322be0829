/** Decimal text, as Go's strconv.Itoa and the zero-padded fields of time.Format write it. */
module Decimal {
  predicate IsDigit(c: char) { '0' <= c <= '9' }

  predicate AllDigits(s: string) { forall i :: 0 <= i < |s| ==> IsDigit(s[i]) }

  function DigitChar(d: nat): (c: char)
    requires d < 10
    ensures IsDigit(c) && DigitValue(c) == d
  {
    '0' + d as char
  }

  function DigitValue(c: char): (d: nat)
    requires IsDigit(c)
    ensures d < 10
  {
    (c - '0') as nat
  }

  function Itoa(n: nat): (s: string)
    ensures |s| >= 1 && AllDigits(s)
  {
    if n < 10 then [DigitChar(n)] else Itoa(n / 10) + [DigitChar(n % 10)]
  }

  function Atoi(s: string): nat
    requires AllDigits(s)
  {
    if s == [] then 0 else 10 * Atoi(s[..|s| - 1]) + DigitValue(s[|s| - 1])
  }

  /** Reading the text back gives the number. */
  lemma {:induction false} AtoiOfItoa(n: nat)
    ensures Atoi(Itoa(n)) == n
  {
    if n >= 10 {
      AtoiOfItoa(n / 10);
      assert Itoa(n)[..|Itoa(n)| - 1] == Itoa(n / 10);
    }
  }

  function Zeros(n: nat): (s: string)
    ensures |s| == n && AllDigits(s)
  {
    seq(n, i => '0')
  }

  /** `%0*d`: at least `width` digits, padded with zeros on the left. */
  function Padded(n: nat, width: nat): (s: string)
    ensures |s| >= 1 && |s| >= width && AllDigits(s)
  {
    var t := Itoa(n);
    if |t| >= width then t else Zeros(width - |t|) + t
  }

  lemma {:induction false} AtoiIgnoresZeros(k: nat, s: string)
    requires AllDigits(s)
    ensures AllDigits(Zeros(k) + s) && Atoi(Zeros(k) + s) == Atoi(s)
  {
    if s == [] {
      AtoiOfZeros(k);
      assert Zeros(k) + s == Zeros(k);
    } else {
      AtoiIgnoresZeros(k, s[..|s| - 1]);
      assert (Zeros(k) + s)[..|Zeros(k) + s| - 1] == Zeros(k) + s[..|s| - 1];
    }
  }

  lemma {:induction false} AtoiOfZeros(k: nat)
    ensures Atoi(Zeros(k)) == 0
  {
    if k > 0 {
      AtoiOfZeros(k - 1);
      assert Zeros(k)[..k - 1] == Zeros(k - 1);
    }
  }

  lemma PaddedInjective(a: nat, b: nat, width: nat)
    requires Padded(a, width) == Padded(b, width)
    ensures a == b
  {
    AtoiOfPadded(a, width);
    AtoiOfPadded(b, width);
  }

  lemma AtoiOfPadded(n: nat, width: nat)
    ensures Atoi(Padded(n, width)) == n
  {
    AtoiOfItoa(n);
    var t := Itoa(n);
    if |t| < width { AtoiIgnoresZeros(width - |t|, t); }
  }

  /** Numbers below 100 take exactly two characters when padded to two. */
  lemma PaddedTwo(n: nat)
    requires n < 100
    ensures |Padded(n, 2)| == 2
  {
    if n >= 10 { assert Itoa(n) == Itoa(n / 10) + [DigitChar(n % 10)] && |Itoa(n / 10)| == 1; }
  }
}
