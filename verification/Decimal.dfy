/** Decimal numerals as text, in UTF-16 code units. */
module Decimal {
  type CodeUnit = n: nat | n < 0x1_0000
  type Text = seq<CodeUnit>

  const ZERO: CodeUnit := 48

  predicate IsDigit(c: CodeUnit) { ZERO <= c <= ZERO + 9 }

  predicate AllDigits(s: Text) { forall i :: 0 <= i < |s| ==> IsDigit(s[i]) }

  function Pow10(k: nat): (p: nat)
    ensures p > 0
  {
    if k == 0 then 1 else 10 * Pow10(k - 1)
  }

  /** The numeral of `n`, without leading zeros. */
  function Numeral(n: nat): (s: Text)
    ensures |s| > 0 && AllDigits(s)
    ensures |s| > 1 ==> s[0] != ZERO
  {
    if n < 10 then [ZERO + n] else Numeral(n / 10) + [ZERO + n % 10]
  }

  function Value(s: Text): nat
    requires AllDigits(s)
  {
    if s == [] then 0 else 10 * Value(s[..|s| - 1]) + (s[|s| - 1] - ZERO)
  }

  lemma {:induction false} ValueOfNumeral(n: nat)
    ensures Value(Numeral(n)) == n
  {
    if n >= 10 {
      assert Numeral(n)[..|Numeral(n)| - 1] == Numeral(n / 10);
      ValueOfNumeral(n / 10);
    }
  }

  lemma {:induction false} ValueFits(s: Text)
    requires AllDigits(s)
    ensures Value(s) < Pow10(|s|)
  {
    if s != [] { ValueFits(s[..|s| - 1]); }
  }

  lemma {:induction false} ValueSplit(a: Text, b: Text)
    requires AllDigits(a) && AllDigits(b)
    ensures AllDigits(a + b) && Value(a + b) == Value(a) * Pow10(|b|) + Value(b)
  {
    if b == [] {
      assert a + b == a;
    } else {
      assert (a + b)[..|a + b| - 1] == a + b[..|b| - 1];
      ValueSplit(a, b[..|b| - 1]);
      Scale(Value(a), Pow10(|b| - 1));
    }
  }

  lemma Scale(v: nat, p: nat)
    ensures v * (10 * p) == 10 * (v * p)
  {
  }

  lemma {:induction false} NumeralLength(n: nat, k: nat)
    requires k > 0 && n < Pow10(k)
    ensures |Numeral(n)| <= k
    decreases k
  {
    if n >= 10 { NumeralLength(n / 10, k - 1); }
  }

  function Zeros(k: nat): (s: Text)
    ensures |s| == k && AllDigits(s)
  {
    if k == 0 then [] else Zeros(k - 1) + [ZERO]
  }

  lemma {:induction false} ValueOfZeros(k: nat)
    ensures Value(Zeros(k)) == 0
  {
    if k > 0 {
      assert Zeros(k)[..k - 1] == Zeros(k - 1);
      ValueOfZeros(k - 1);
    }
  }

  /** `padStart(width, "0")`. */
  function PadStart(s: Text, width: nat): Text { if |s| >= width then s else Zeros(width - |s|) + s }
}
