/**
 Decimal digit strings: printing a natural number, reading one, and why the two are inverse.
 */
module Decimal {
  predicate IsDigit(c: char) {
    '0' <= c <= '9'
  }

  predicate AllDigits(s: string) {
    forall i :: 0 <= i < |s| ==> IsDigit(s[i])
  }

  function DigitChar(d: nat): (c: char)
    requires d < 10
    ensures IsDigit(c)
  {
    '0' + d as char
  }

  function DigitOf(c: char): (d: nat)
    requires IsDigit(c)
    ensures d < 10
  {
    (c - '0') as nat
  }

  lemma DigitsInvert(d: nat, c: char)
    ensures d < 10 ==> DigitChar(d) == "0123456789"[d] && DigitOf(DigitChar(d)) == d
    ensures IsDigit(c) ==> DigitChar(DigitOf(c)) == c
  {
  }

  // The number a digit string stands for; leading zeros allowed.
  function Value(s: string): nat
    requires AllDigits(s)
  {
    if s == "" then 0 else 10 * Value(s[..|s| - 1]) + DigitOf(s[|s| - 1])
  }

  function ToDec(n: nat): string
    decreases n
  {
    if n < 10 then [DigitChar(n)] else ToDec(n / 10) + [DigitChar(n % 10)]
  }

  // Nonempty, digits only, and no leading zero except "0" itself.
  predicate Canonical(s: string) {
    s != "" && AllDigits(s) && (s == "0" || s[0] != '0')
  }

  lemma {:induction false} PrintedIsCanonical(n: nat)
    ensures Canonical(ToDec(n)) && Value(ToDec(n)) == n
    ensures n > 0 ==> ToDec(n)[0] != '0'
    decreases n
  {
    if n < 10 {
      DigitsInvert(n, '0');
    } else {
      PrintedIsCanonical(n / 10);
      DigitsInvert(n % 10, '0');
      assert ToDec(n)[..|ToDec(n)| - 1] == ToDec(n / 10);
    }
  }

  lemma {:induction false} ValueIsPositive(s: string)
    requires Canonical(s) && s != "0"
    ensures Value(s) > 0
  {
    if |s| > 1 {
      ValueIsPositive(s[..|s| - 1]);
    }
  }

  lemma PrintedStep(v: nat, d: nat)
    requires v > 0 && d < 10
    ensures ToDec(10 * v + d) == ToDec(v) + [DigitChar(d)]
  {
  }

  lemma {:induction false} CanonicalIsPrinted(s: string)
    requires Canonical(s)
    ensures ToDec(Value(s)) == s
  {
    var last := |s| - 1;
    DigitsInvert(0, s[last]);
    if |s| > 1 {
      CanonicalIsPrinted(s[..last]);
      ValueIsPositive(s[..last]);
      PrintedStep(Value(s[..last]), DigitOf(s[last]));
      assert s == s[..last] + [s[last]];
    }
  }

  // A canonical string and the number it prints determine each other.
  lemma PrintReadInverse(s: string, n: nat)
    ensures Canonical(s) && Value(s) == n <==> s == ToDec(n)
  {
    PrintedIsCanonical(n);
    if Canonical(s) {
      CanonicalIsPrinted(s);
    }
  }

  // ---- powers of ten and concatenation ---------------------------------------------------------------

  function Pow10(n: nat): (p: nat)
    ensures p >= 1
  {
    if n == 0 then 1 else 10 * Pow10(n - 1)
  }

  lemma ShiftIn(v: nat, p: nat, w: nat, d: nat)
    ensures 10 * (v * p + w) + d == v * (10 * p) + (10 * w + d)
  {
    assert 10 * (v * p) == v * (10 * p);
  }

  lemma ValueSnoc(s: string, c: char)
    requires AllDigits(s) && IsDigit(c)
    ensures AllDigits(s + [c]) && Value(s + [c]) == 10 * Value(s) + DigitOf(c)
  {
    assert (s + [c])[..|s|] == s;
  }

  lemma {:induction false} ValueOfConcat(a: string, b: string)
    requires AllDigits(a) && AllDigits(b)
    ensures AllDigits(a + b) && Value(a + b) == Value(a) * Pow10(|b|) + Value(b)
    decreases |b|
  {
    if b == "" {
      assert a + b == a;
    } else {
      var init, c := b[..|b| - 1], b[|b| - 1];
      ValueOfConcat(a, init);
      assert a + b == (a + init) + [c] && b == init + [c];
      ValueSnoc(a + init, c);
      ValueSnoc(init, c);
      ShiftIn(Value(a), Pow10(|init|), Value(init), DigitOf(c));
    }
  }

  lemma {:induction false} ValueBelowPow10(s: string)
    requires AllDigits(s)
    ensures Value(s) < Pow10(|s|)
  {
    if s != "" {
      ValueBelowPow10(s[..|s| - 1]);
    }
  }

  lemma {:induction false} PrintedLength(n: nat, d: nat)
    requires n < Pow10(d) && d > 0
    ensures |ToDec(n)| <= d
    decreases d
  {
    if n >= 10 {
      PrintedLength(n / 10, d - 1);
    }
  }

  function Zeros(n: nat): (s: string)
    ensures |s| == n && AllDigits(s) && forall i :: 0 <= i < n ==> s[i] == '0'
  {
    seq(n, i => '0')
  }

  lemma {:induction false} ValueOfZeros(n: nat)
    ensures Value(Zeros(n)) == 0
    decreases n
  {
    if n > 0 {
      assert Zeros(n)[..n - 1] == Zeros(n - 1);
      ValueOfZeros(n - 1);
    }
  }
}
