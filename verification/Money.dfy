/**
 Fixed-point rendering of on-chain amounts: a signed integer number of base units as a decimal string
 with the trailing zeros of the fraction trimmed.
 */
module Money {
  import opened Wrappers
  import opened Decimal

  // Left-padded with zeros to a width.
  function PadLeft(s: string, width: nat): string {
    if |s| >= width then s else Zeros(width - |s|) + s
  }

  function TrimZeros(s: string): (t: string)
    ensures |t| <= |s|
  {
    if s != "" && s[|s| - 1] == '0' then TrimZeros(s[..|s| - 1]) else s
  }

  function Magnitude(units: int): nat {
    if units < 0 then -units else units
  }

  function Sign(units: int): string {
    if units < 0 then "-" else ""
  }

  function Unsigned(whole: nat, frac: nat, decimals: nat): string {
    if frac == 0 then ToDec(whole)
    else ToDec(whole) + "." + TrimZeros(PadLeft(ToDec(frac), decimals))
  }

  const U64_LIMIT: nat := 0x1_0000_0000_0000_0000

  // The source computes 10^decimals in 64 bits.
  function ScaledDecimalString(units: int, decimals: nat): string
    requires Pow10(decimals) < U64_LIMIT
  {
    Rendered(units, Pow10(decimals), decimals)
  }

  function Rendered(units: int, divisor: nat, decimals: nat): string
    requires divisor > 0
  {
    Sign(units) + Unsigned(Magnitude(units) / divisor, Magnitude(units) % divisor, decimals)
  }

  lemma DivMod(m: nat, divisor: nat)
    requires divisor > 0
    ensures m / divisor >= 0 && m == m / divisor * divisor + m % divisor
  {
  }

  // ---- an independent reader --------------------------------------------------------------------------

  function PointAt(s: string): (p: nat)
    ensures p <= |s|
  {
    if s == "" || s[0] == '.' then 0 else 1 + PointAt(s[1..])
  }

  // The digits of an amount once the point is moved `decimals` places to the right.
  function Joined(s: string, decimals: nat): (r: Option<string>)
    ensures r.Some? ==> AllDigits(r.value)
  {
    var p := PointAt(s);
    var whole, frac := s[..p], if p < |s| then s[p + 1..] else "";
    if whole != "" && AllDigits(whole) && AllDigits(frac) && |frac| <= decimals
    then Some(whole + (frac + Zeros(decimals - |frac|)))
    else None
  }

  function ReadMagnitude(s: string, decimals: nat): Option<nat> {
    match Joined(s, decimals)
    case None => None
    case Some(digits) => Some(Value(digits))
  }

  function Read(s: string, decimals: nat): Option<int> {
    var negative := s != "" && s[0] == '-';
    match ReadMagnitude(if negative then s[1..] else s, decimals)
    case None => None
    case Some(m) => var magnitude: int := m; Some(if negative then -magnitude else magnitude)
  }

  // ---- the fraction -----------------------------------------------------------------------------------

  // Trimming drops only zeros at the end.
  lemma {:induction false} TrimFacts(s: string)
    requires AllDigits(s)
    ensures var t := TrimZeros(s);
      && AllDigits(t) && t + Zeros(|s| - |t|) == s
      && (t == "" || t[|t| - 1] != '0')
    decreases |s|
  {
    if s != "" && s[|s| - 1] == '0' {
      TrimFacts(s[..|s| - 1]);
    }
  }

  lemma {:induction false} TrimLeavesSome(s: string)
    requires AllDigits(s) && Value(s) > 0
    ensures TrimZeros(s) != ""
    decreases |s|
  {
    if s[|s| - 1] == '0' {
      TrimLeavesSome(s[..|s| - 1]);
    }
  }

  lemma PaddedFraction(frac: nat, decimals: nat)
    requires 0 < frac < Pow10(decimals)
    ensures var s := PadLeft(ToDec(frac), decimals); |s| == decimals && AllDigits(s) && Value(s) == frac
  {
    PrintedIsCanonical(frac);
    PrintedLength(frac, decimals);
    ValueOfZeros(decimals - |ToDec(frac)|);
    ValueOfConcat(Zeros(decimals - |ToDec(frac)|), ToDec(frac));
  }

  // The `decimals` digits of a fraction.
  function FractionDigits(frac: nat, decimals: nat): string {
    if frac == 0 then Zeros(decimals) else PadLeft(ToDec(frac), decimals)
  }

  lemma FractionDigitsFacts(frac: nat, decimals: nat)
    requires frac < Pow10(decimals)
    ensures var s := FractionDigits(frac, decimals); |s| == decimals && AllDigits(s) && Value(s) == frac
  {
    if frac == 0 {
      ValueOfZeros(decimals);
    } else {
      PaddedFraction(frac, decimals);
    }
  }

  predicate IsTrimmed(t: string, digits: string) {
    && AllDigits(t) && 0 < |t| <= |digits| && t[|t| - 1] != '0'
    && t + Zeros(|digits| - |t|) == digits
  }

  lemma TrimmedDigits(digits: string)
    requires AllDigits(digits) && Value(digits) > 0
    ensures IsTrimmed(TrimZeros(digits), digits)
  {
    TrimFacts(digits);
    TrimLeavesSome(digits);
  }

  lemma TrimmedFraction(frac: nat, decimals: nat)
    requires 0 < frac < Pow10(decimals)
    ensures |FractionDigits(frac, decimals)| == decimals
    ensures IsTrimmed(TrimZeros(FractionDigits(frac, decimals)), FractionDigits(frac, decimals))
  {
    PaddedFraction(frac, decimals);
    TrimmedDigits(FractionDigits(frac, decimals));
  }

  // ---- round trip -------------------------------------------------------------------------------------

  lemma {:induction false} PointAfterDigits(whole: string, rest: string)
    requires AllDigits(whole) && (rest == "" || rest[0] == '.')
    ensures PointAt(whole + rest) == |whole|
    decreases |whole|
  {
    var s := whole + rest;
    if whole == "" {
      assert s == rest;
    } else {
      PointAfterDigits(whole[1..], rest);
      assert s[1..] == whole[1..] + rest;
    }
  }

  lemma ReadsWhole(w: string, decimals: nat)
    requires w != "" && AllDigits(w)
    ensures Joined(w, decimals) == Some(w + Zeros(decimals))
  {
    PointAfterDigits(w, "");
    assert w + "" == w && w[..|w|] == w;
    assert "" + Zeros(decimals) == Zeros(decimals);
  }

  lemma ReadsWithPoint(w: string, f: string, decimals: nat)
    requires w != "" && AllDigits(w) && AllDigits(f) && |f| <= decimals
    ensures Joined(w + "." + f, decimals) == Some(w + (f + Zeros(decimals - |f|)))
  {
    var s := w + "." + f;
    PointAfterDigits(w, "." + f);
    assert s == w + ("." + f);
    assert s[..|w|] == w && s[|w| + 1..] == f;
  }

  lemma ReadsDigits(whole: nat, frac: nat, decimals: nat)
    requires frac < Pow10(decimals)
    ensures Joined(Unsigned(whole, frac, decimals), decimals)
         == Some(ToDec(whole) + FractionDigits(frac, decimals))
  {
    PrintedIsCanonical(whole);
    if frac == 0 {
      ReadsWhole(ToDec(whole), decimals);
    } else {
      TrimmedFraction(frac, decimals);
      ReadsWithPoint(ToDec(whole), TrimZeros(FractionDigits(frac, decimals)), decimals);
    }
  }

  lemma StartsWithDigit(whole: nat, frac: nat, decimals: nat)
    ensures var s := Unsigned(whole, frac, decimals); s != "" && IsDigit(s[0])
  {
    PrintedIsCanonical(whole);
  }

  lemma DigitsRecompose(whole: nat, frac: nat, decimals: nat)
    requires frac < Pow10(decimals)
    ensures AllDigits(ToDec(whole) + FractionDigits(frac, decimals))
    ensures Value(ToDec(whole) + FractionDigits(frac, decimals)) == whole * Pow10(decimals) + frac
  {
    PrintedIsCanonical(whole);
    FractionDigitsFacts(frac, decimals);
    ValueOfConcat(ToDec(whole), FractionDigits(frac, decimals));
  }

  lemma ReadsSigned(units: int, body: string, decimals: nat)
    requires body != "" && IsDigit(body[0]) && ReadMagnitude(body, decimals) == Some(Magnitude(units))
    ensures Read(Sign(units) + body, decimals) == Some(units)
  {
    var s := Sign(units) + body;
    if units < 0 {
      assert s[1..] == body;
    } else {
      assert s == body;
    }
  }

  lemma ReadsUnsigned(m: nat, whole: nat, frac: nat, divisor: nat, decimals: nat)
    requires frac < divisor == Pow10(decimals) && m == whole * divisor + frac
    ensures ReadMagnitude(Unsigned(whole, frac, decimals), decimals) == Some(m)
  {
    ReadsDigits(whole, frac, decimals);
    DigitsRecompose(whole, frac, decimals);
  }

  lemma ReadsRendered(units: int, divisor: nat, decimals: nat)
    requires divisor == Pow10(decimals)
    ensures Read(Rendered(units, divisor, decimals), decimals) == Some(units)
  {
    var m := Magnitude(units);
    DivMod(m, divisor);
    var whole, frac := m / divisor, m % divisor;
    ReadsUnsigned(m, whole, frac, divisor, decimals);
    StartsWithDigit(whole, frac, decimals);
    ReadsSigned(units, Unsigned(whole, frac, decimals), decimals);
  }

  // What is printed is read back as the same amount.
  lemma RoundTrip(units: int, decimals: nat)
    requires Pow10(decimals) < U64_LIMIT
    ensures Read(ScaledDecimalString(units, decimals), decimals) == Some(units)
  {
    ReadsRendered(units, Pow10(decimals), decimals);
  }

  lemma PrintingIsInjective(a: int, b: int, decimals: nat)
    requires Pow10(decimals) < U64_LIMIT
    requires ScaledDecimalString(a, decimals) == ScaledDecimalString(b, decimals)
    ensures a == b
  {
    RoundTrip(a, decimals);
    RoundTrip(b, decimals);
  }

  // No point without a fraction, and no fraction that ends in zero.
  predicate CleanTail(s: string, fractional: bool) {
    && s != ""
    && ('.' in s <==> fractional)
    && (fractional ==> IsDigit(s[|s| - 1]) && s[|s| - 1] != '0')
  }

  lemma TailWithPoint(sign: string, w: string, f: string)
    requires f != "" && IsDigit(f[|f| - 1]) && f[|f| - 1] != '0'
    ensures CleanTail(sign + (w + "." + f), true)
  {
    var s := sign + (w + "." + f);
    assert s[|sign| + |w|] == '.';
    assert s[|s| - 1] == f[|f| - 1];
  }

  lemma TailWithoutPoint(sign: string, w: string)
    requires '.' !in sign && w != "" && AllDigits(w)
    ensures CleanTail(sign + w, false)
  {
    assert forall i :: 0 <= i < |w| ==> w[i] != '.';
  }

  lemma UnsignedTail(sign: string, whole: nat, frac: nat, decimals: nat)
    requires frac < Pow10(decimals) && '.' !in sign
    ensures CleanTail(sign + Unsigned(whole, frac, decimals), frac != 0)
  {
    PrintedIsCanonical(whole);
    if frac == 0 {
      TailWithoutPoint(sign, ToDec(whole));
    } else {
      TrimmedFraction(frac, decimals);
      TailWithPoint(sign, ToDec(whole), TrimZeros(FractionDigits(frac, decimals)));
    }
  }

  lemma RenderedTail(units: int, divisor: nat, decimals: nat)
    requires divisor == Pow10(decimals)
    ensures CleanTail(Rendered(units, divisor, decimals), Magnitude(units) % divisor != 0)
  {
    DivMod(Magnitude(units), divisor);
    UnsignedTail(Sign(units), Magnitude(units) / divisor, Magnitude(units) % divisor, decimals);
  }

  // A point is printed exactly for amounts that are not whole, and then the last digit is not zero.
  lemma NoTrailingZeros(units: int, decimals: nat)
    requires Pow10(decimals) < U64_LIMIT
    ensures CleanTail(ScaledDecimalString(units, decimals), Magnitude(units) % Pow10(decimals) != 0)
  {
    RenderedTail(units, Pow10(decimals), decimals);
  }
}
