/** Decimal text of integers, and reading it back. */
module Digits {

  predicate IsDigit(c: char) { '0' <= c <= '9' }

  function DigitChar(d: nat): (c: char)
    requires d < 10
    ensures IsDigit(c)
  {
    d as char + '0'
  }

  function DigitValue(c: char): (d: nat)
    requires IsDigit(c)
    ensures d < 10 && DigitChar(d) == c
  {
    (c - '0') as nat
  }

  predicate AllDigits(s: string) { forall i :: 0 <= i < |s| ==> IsDigit(s[i]) }

  /** As Python's `str` writes a natural number: no leading zero but for zero itself. */
  function NatText(n: nat): (s: string)
    ensures s != "" && AllDigits(s)
  {
    if n < 10 then [DigitChar(n)] else NatText(n / 10) + [DigitChar(n % 10)]
  }

  function NatOf(s: string): (n: nat)
    requires AllDigits(s)
  {
    if s == "" then 0 else 10 * NatOf(s[..|s| - 1]) + DigitValue(s[|s| - 1])
  }

  lemma {:induction false} NatRoundTrip(n: nat)
    ensures NatOf(NatText(n)) == n
  {
    if n >= 10 {
      NatRoundTrip(n / 10);
      assert NatText(n)[..|NatText(n)| - 1] == NatText(n / 10);
    } else {
      assert NatText(n)[..0] == "";
    }
  }

  /** No leading zero but for zero itself. */
  lemma {:induction false} NatTextIsPlain(n: nat)
    ensures |NatText(n)| == 1 || NatText(n)[0] != '0'
  {
    if n >= 10 {
      NatTextIsPlain(n / 10);
      assert NatText(n)[0] == NatText(n / 10)[0];
      if n < 100 {
        assert NatText(n / 10) == [DigitChar(n / 10)];
      } else {
        assert NatText(n / 10) == NatText(n / 10 / 10) + [DigitChar(n / 10 % 10)];
      }
    }
  }

  function IntText(i: int): (s: string)
    ensures s != "" && (IsDigit(s[0]) || s[0] == '-')
  {
    if i < 0 then "-" + NatText(-i) else NatText(i)
  }

  /** An optional minus and at least one digit. */
  predicate IsIntText(s: string) {
    (s != "" && AllDigits(s)) || (|s| > 1 && s[0] == '-' && AllDigits(s[1..]))
  }

  function IntOf(s: string): (i: int)
    requires IsIntText(s)
  {
    if s[0] == '-' then -(NatOf(s[1..]) as int) else NatOf(s)
  }

  lemma IntRoundTrip(i: int)
    ensures IsIntText(IntText(i)) && IntOf(IntText(i)) == i
  {
    if i < 0 {
      NatRoundTrip(-i);
      assert IntText(i)[1..] == NatText(-i);
      assert IntText(i)[0] == '-';
    } else {
      NatRoundTrip(i);
      assert IsDigit(IntText(i)[0]);
    }
  }

  // -- fixed width -------------------------------------------------------------------------

  function Power10(w: nat): (p: nat)
    ensures p > 0
  {
    if w == 0 then 1 else 10 * Power10(w - 1)
  }

  /** `n` in exactly `w` digits, zero padded. */
  function Padded(n: nat, w: nat): (s: string)
    requires n < Power10(w)
    ensures |s| == w && AllDigits(s)
    decreases w
  {
    if w == 0 then "" else Padded(n / 10, w - 1) + [DigitChar(n % 10)]
  }

  lemma {:induction false} PaddedRoundTrip(n: nat, w: nat)
    requires n < Power10(w)
    ensures NatOf(Padded(n, w)) == n
    decreases w
  {
    if w > 0 {
      PaddedRoundTrip(n / 10, w - 1);
      assert Padded(n, w)[..w - 1] == Padded(n / 10, w - 1);
    }
  }

  /** Digits are the fixed-width text of what they read as. */
  lemma {:induction false} PaddedReads(s: string)
    requires AllDigits(s)
    ensures NatOf(s) < Power10(|s|) && Padded(NatOf(s), |s|) == s
  {
    if s != "" {
      var init := s[..|s| - 1];
      PaddedReads(init);
      assert NatOf(s) / 10 == NatOf(init) && s == init + [s[|s| - 1]];
    }
  }

  /** Fixed-width text is injective. */
  lemma PaddedInjective(n: nat, m: nat, w: nat)
    requires n < Power10(w) && m < Power10(w) && Padded(n, w) == Padded(m, w)
    ensures n == m
  {
    PaddedRoundTrip(n, w);
    PaddedRoundTrip(m, w);
  }
}
