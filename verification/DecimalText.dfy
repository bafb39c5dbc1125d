/**
 Money as decimal text (src/money/Money.ts: `fromString`, `toFixed`, `toString`).
 */
module DecimalText {
  import opened Wrappers
  import opened Money
  import opened Digits

  const PLACES: nat := 8

  // ---- Writing ----

  function NatText(n: nat): (s: string)
    ensures IsNumeral(s)
  {
    if n < 10 then [DigitChar(n)] else NatText(n / 10) + [DigitChar(n % 10)]
  }

  function Zeros(n: nat): (s: string)
    ensures |s| == n && AllDigits(s)
  {
    seq(n, i => '0')
  }

  function PadStart(s: string, width: nat): string {
    if |s| >= width then s else Zeros(width - |s|) + s
  }

  function ToText(m: Money): string {
    (if m < 0 then "-" else "") + NatText(Abs(m) / SCALE) + "." + PadStart(NatText(Abs(m) % SCALE), PLACES)
  }

  // ---- Reading ----

  predicate IsSpace(c: char) {
    c == ' ' || c == '\t' || c == '\n' || c == '\r'
  }

  function TrimStart(s: string): string {
    if s != "" && IsSpace(s[0]) then TrimStart(s[1..]) else s
  }

  function TrimEnd(s: string): string {
    if s != "" && IsSpace(s[|s| - 1]) then TrimEnd(s[..|s| - 1]) else s
  }

  // The position of the first point, or the length.
  function PointAt(s: string): (k: nat)
    ensures k <= |s|
  {
    if s == "" || s[0] == '.' then 0 else 1 + PointAt(s[1..])
  }

  // The scaled magnitude of integer and fraction digits; digits beyond the eighth round half up.
  function Magnitude(whole: string, frac: string): nat
    requires AllDigits(whole) && AllDigits(frac)
  {
    if |frac| > PLACES then
      Value(whole) * SCALE + Value(frac[..PLACES]) + if DigitValue(frac[PLACES]) >= 5 then 1 else 0
    else Value(whole) * SCALE + Value(frac + Zeros(PLACES - |frac|))
  }

  // The text after the sign: one or more digits, then optionally a point and any digits.
  function MagnitudeOf(body: string): Option<nat> {
    var k := PointAt(body);
    var whole, frac := body[..k], if k < |body| then body[k + 1..] else "";
    if IsNumeral(whole) && AllDigits(frac) then Some(Magnitude(whole, frac)) else None
  }

  function FromText(input: string): Option<Money> {
    var t := TrimEnd(TrimStart(input));
    if t != "" && (t[0] == '-' || t[0] == '+') then
      var m := MagnitudeOf(t[1..]);
      if m.None? then None else Some(if t[0] == '-' then 0 - m.value else m.value)
    else
      var m := MagnitudeOf(t);
      if m.None? then None else Some(m.value)
  }

  // ---- Round trip ----

  lemma {:induction false} NatTextValue(n: nat)
    ensures Value(NatText(n)) == n
  {
    if n >= 10 {
      NatTextValue(n / 10);
      var s := NatText(n);
      assert s[..|s| - 1] == NatText(n / 10) && s[|s| - 1] == DigitChar(n % 10);
    } else {
      assert NatText(n)[..0] == "";
    }
  }

  lemma {:induction false} NatTextLength(n: nat, k: nat)
    requires k > 0 && n < Pow10(k)
    ensures |NatText(n)| <= k
    decreases k
  {
    if n >= 10 {
      assert Pow10(k) == 10 * Pow10(k - 1) && Pow10(0) == 1;
      NatTextLength(n / 10, k - 1);
    }
  }

  lemma {:induction false} ZerosValue(n: nat)
    ensures Value(Zeros(n)) == 0
  {
    if n > 0 {
      ZerosValue(n - 1);
      assert Zeros(n)[..n - 1] == Zeros(n - 1);
    }
  }

  lemma PlacesPow()
    ensures Pow10(PLACES) == SCALE
  {
    assert Pow10(8) == 10 * Pow10(7) && Pow10(7) == 10 * Pow10(6) && Pow10(6) == 10 * Pow10(5)
        && Pow10(5) == 10 * Pow10(4);
    assert Pow10(4) == 10 * Pow10(3) && Pow10(3) == 10 * Pow10(2) && Pow10(2) == 10 * Pow10(1)
        && Pow10(1) == 10 * Pow10(0);
  }

  lemma PaddedValue(n: nat)
    requires n < SCALE
    ensures var s := PadStart(NatText(n), PLACES); AllDigits(s) && |s| == PLACES && Value(s) == n
  {
    PlacesPow();
    NatTextLength(n, PLACES);
    NatTextValue(n);
    var pad := Zeros(PLACES - |NatText(n)|);
    ValueOfAppend(pad, NatText(n));
    ZerosValue(PLACES - |NatText(n)|);
    hide Pow10;
    assert PadStart(NatText(n), PLACES) == pad + NatText(n);
  }

  lemma {:induction false} PointAfterDigits(whole: string, rest: string)
    requires AllDigits(whole) && rest != "" && rest[0] == '.'
    ensures PointAt(whole + rest) == |whole|
    decreases |whole|
  {
    if whole != "" {
      assert (whole + rest)[1..] == whole[1..] + rest;
      PointAfterDigits(whole[1..], rest);
    } else {
      assert whole + rest == rest;
    }
  }

  lemma WrittenMagnitude(n: nat)
    ensures MagnitudeOf(NatText(n / SCALE) + "." + PadStart(NatText(n % SCALE), PLACES)) == Some(n)
  {
    var whole, frac := NatText(n / SCALE), PadStart(NatText(n % SCALE), PLACES);
    var body := whole + "." + frac;
    PaddedValue(n % SCALE);
    NatTextValue(n / SCALE);
    assert body == whole + ("." + frac);
    PointAfterDigits(whole, "." + frac);
    assert body[..|whole|] == whole && body[|whole| + 1..] == frac;
    assert frac + Zeros(0) == frac;
    Split(n, SCALE);
    hide NatText, PadStart, Value;
  }

  lemma UntouchedByTrim(s: string)
    requires s != "" && !IsSpace(s[0]) && !IsSpace(s[|s| - 1])
    ensures TrimEnd(TrimStart(s)) == s
  {
  }

  // Text that is read as a magnitude, with and without a sign.
  lemma ReadsSigned(body: string, n: nat)
    requires MagnitudeOf(body) == Some(n) && body != "" && IsDigit(body[0]) && IsDigit(body[|body| - 1])
    ensures FromText(body) == Some(n) && FromText("-" + body) == Some(0 - n)
  {
    hide MagnitudeOf;
    UntouchedByTrim(body);
    UntouchedByTrim("-" + body);
    hide TrimStart, TrimEnd;
    assert ("-" + body)[1..] == body;
  }

  // Every amount is read back from what was written, whatever its sign and size.
  lemma RoundTrip(m: Money)
    ensures FromText(ToText(m)) == Some(m)
  {
    hide NatText, PadStart, MagnitudeOf, FromText, Value;
    var n := Abs(m);
    WrittenMagnitude(n);
    PaddedValue(n % SCALE);
    var whole, frac := NatText(n / SCALE), PadStart(NatText(n % SCALE), PLACES);
    var body := whole + "." + frac;
    assert body[0] == whole[0] && body[|body| - 1] == frac[|frac| - 1];
    ReadsSigned(body, n);
    SignInFront(whole, frac);
    assert ToText(m) == if m < 0 then "-" + body else body;
  }

  lemma SignInFront(whole: string, frac: string)
    ensures "-" + whole + "." + frac == "-" + (whole + "." + frac)
    ensures "" + whole + "." + frac == whole + "." + frac
  {
  }

  // ---- Reading is exact up to eight places and nearest beyond ----

  // The magnitude times 10^k is the digits' value times 10^8, for k fraction digits; beyond eight
  // of them the dropped ones round it by at most half a unit.
  lemma MagnitudeIsNearest(whole: string, frac: string)
    requires AllDigits(whole) && AllDigits(frac)
    ensures |frac| <= PLACES ==> Magnitude(whole, frac) * Pow10(|frac|) == Value(whole + frac) * SCALE
    ensures |frac| > PLACES ==>
              var unit: int := Pow10(|frac| - PLACES);
              -unit <= 2 * (Magnitude(whole, frac) * unit - Value(whole + frac)) <= unit
  {
    if |frac| <= PLACES { ExactMagnitude(whole, frac); } else { RoundedMagnitude(whole, frac); }
  }

  lemma {:induction false} PowAdd(a: nat, b: nat)
    ensures Pow10(a + b) == Pow10(a) * Pow10(b)
    decreases a
  {
    if a > 0 {
      PowAdd(a - 1, b);
    }
  }

  lemma ExactMagnitude(whole: string, frac: string)
    requires AllDigits(whole) && AllDigits(frac) && |frac| <= PLACES
    ensures Magnitude(whole, frac) * Pow10(|frac|) == Value(whole + frac) * SCALE
  {
    var k := PLACES - |frac|;
    PlacesPow();
    PowAdd(k, |frac|);
    ZerosValue(k);
    hide Value, Pow10, Zeros;
    ValueOfAppend(frac, Zeros(k));
    ValueOfAppend(whole, frac);
    ExactArithmetic(Magnitude(whole, frac), Value(whole), Value(frac), Pow10(k), Pow10(|frac|), Value(whole + frac));
  }

  lemma ExactArithmetic(m: int, w: int, f: int, p: int, q: int, v: int)
    requires SCALE == p * q && m == w * SCALE + f * p && v == w * q + f
    ensures m * q == v * SCALE
  {
    assert m * q == w * SCALE * q + f * p * q;
    assert v * SCALE == w * q * SCALE + f * SCALE;
    assert f * p * q == f * (p * q);
  }

  lemma RoundedMagnitude(whole: string, frac: string)
    requires AllDigits(whole) && AllDigits(frac) && |frac| > PLACES
    ensures var unit: int := Pow10(|frac| - PLACES);
            -unit <= 2 * (Magnitude(whole, frac) * unit - Value(whole + frac)) <= unit
  {
    var keep, drop := frac[..PLACES], frac[PLACES..];
    var up := DigitValue(drop[0]) >= 5;
    hide Value, Pow10, Magnitude;
    FirstDigit(drop);
    assert whole + frac == (whole + keep) + drop;
    ValueOfAppend(whole + keep, drop);
    KeptMagnitude(whole, frac);
    RoundedArithmetic(Value(whole + keep), Pow10(|drop|), Value(drop), up, Magnitude(whole, frac), Value(whole + frac));
  }

  lemma KeptMagnitude(whole: string, frac: string)
    requires AllDigits(whole) && AllDigits(frac) && |frac| > PLACES
    ensures Magnitude(whole, frac) == Value(whole + frac[..PLACES]) + if DigitValue(frac[PLACES]) >= 5 then 1 else 0
  {
    PlacesPow();
    hide Value, Pow10;
    ValueOfAppend(whole, frac[..PLACES]);
  }

  lemma RoundedArithmetic(kept: int, unit: int, dropped: int, up: bool, m: int, v: int)
    requires 0 <= dropped <= unit && (if up then 2 * dropped >= unit else 2 * dropped <= unit)
    requires m == (if up then kept + 1 else kept) && v == kept * unit + dropped
    ensures -unit <= 2 * (m * unit - v) <= unit
  {
    MulStep(kept, unit);
  }

  // The first dropped digit decides on which half the dropped part lies.
  lemma FirstDigit(drop: string)
    requires AllDigits(drop) && drop != ""
    ensures DigitValue(drop[0]) >= 5 ==> 2 * Value(drop) >= Pow10(|drop|)
    ensures DigitValue(drop[0]) < 5 ==> 2 * Value(drop) <= Pow10(|drop|)
    ensures Value(drop) < Pow10(|drop|)
  {
    var rest := drop[1..];
    assert drop == [drop[0]] + rest;
    ValueOfAppend([drop[0]], rest);
    ValueBound(rest);
    ValueBound(drop);
    assert [drop[0]][..0] == "";
    assert Value([drop[0]]) == DigitValue(drop[0]);
    assert Pow10(|drop|) == 10 * Pow10(|rest|);
    var d, p := DigitValue(drop[0]), Pow10(|rest|);
    hide Value, Pow10;
    MulLe(d, 4, p);
    MulLe(5, d, p);
  }
}
