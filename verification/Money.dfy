/**
 Exact fixed-point money (src/money/Money.ts).

 A `Money` is the scaled integer of the original: the human value times 10^8.
 BigInt division truncates toward zero, so `/` and `%` are modelled by `TruncDiv`
 and `TruncMod`; Dafny's own operators are only used on non-negative operands.
 Operations that throw in the original demand a legal argument here, and the
 callers that can meet an illegal one test for it first.
 */
module Money {
  type Money = int

  const SCALE: int := 100_000_000

  function Abs(a: int): nat {
    if a < 0 then -a else a
  }

  // BigInt division: the quotient is truncated toward zero.
  function TruncDiv(a: int, b: int): int
    requires b != 0
  {
    if (a < 0) == (b < 0) then Abs(a) / Abs(b) else -(Abs(a) / Abs(b))
  }

  // BigInt remainder: it has the sign of the dividend.
  function TruncMod(a: int, b: int): int
    requires b != 0
  {
    a - TruncDiv(a, b) * b
  }

  // The nearest whole unit of a product of two scaled magnitudes, halves going up.
  function NearestUnit(product: nat): nat {
    var quotient := product / SCALE;
    if product % SCALE * 2 >= SCALE then quotient + 1 else quotient
  }

  function Mul(a: Money, b: Money): Money {
    var magnitude: int := NearestUnit(Abs(a) * Abs(b));
    if (a < 0) != (b < 0) then -magnitude else magnitude
  }

  function MulFraction(a: Money, numerator: int, denominator: int): Money
    requires denominator != 0
  {
    var product := a * numerator;
    var result := TruncDiv(product, denominator);
    if TruncMod(product, denominator) != 0 && (product < 0) != (denominator < 0) then result - 1 else result
  }

  function Div(a: Money, b: Money): Money
    requires b != 0
  {
    TruncDiv(a * SCALE, b)
  }

  function RoundToIncrement(a: Money, increment: Money): Money
    requires increment > 0
  {
    var quotient := Abs(a) / increment;
    var rounded := if Abs(a) % increment * 2 >= increment then quotient + 1 else quotient;
    (if a < 0 then -rounded else rounded) * increment
  }

  function FloorToIncrement(a: Money, increment: Money): Money
    requires increment > 0
  {
    var quotient := Abs(a) / increment;
    (if a < 0 then -quotient else quotient) * increment
  }

  function CeilToIncrement(a: Money, increment: Money): Money
    requires increment > 0
  {
    var quotient := Abs(a) / increment;
    var ceil := if Abs(a) % increment == 0 then quotient else quotient + 1;
    (if a < 0 then -ceil else ceil) * increment
  }

  predicate IsMultipleOf(a: Money, increment: Money)
    requires increment > 0
  {
    TruncMod(a, increment) == 0
  }

  // ---- Products and quotients ----

  lemma MulLe(a: int, b: int, c: int)
    requires c >= 0
    ensures a <= b ==> a * c <= b * c
    ensures a < b ==> a * c + c <= b * c
  {
    if a <= b {
      NatProduct(b - a, c);
      assert (b - a) * c == b * c - a * c;
    }
    if a < b {
      NatProduct(b - a - 1, c);
      assert (b - a - 1) * c == b * c - a * c - c;
    }
  }

  lemma NatProduct(x: nat, y: nat)
    ensures x * y >= 0
  {
  }

  // A product with a step of the first factor or a change of its sign.
  lemma MulStep(q: int, c: int)
    ensures (q + 1) * c == q * c + c
    ensures (-q) * c == -(q * c)
    ensures (-(q + 1)) * c == -(q * c) - c
    ensures q * (-c) == -(q * c)
    ensures (-q) * (-c) == q * c
  {
  }

  lemma Split(n: nat, d: int)
    requires d > 0
    ensures n == n / d * d + n % d && 0 <= n % d < d
  {
  }

  lemma TruncDivBounds(a: int, b: int)
    requires b != 0
    ensures Abs(TruncMod(a, b)) == Abs(a) % Abs(b)
    ensures TruncMod(a, b) != 0 ==> (TruncMod(a, b) < 0) == (a < 0)
    ensures TruncDiv(a, b) * b + TruncMod(a, b) == a
  {
    var q := Abs(a) / Abs(b);
    Split(Abs(a), Abs(b));
    MulStep(q, b);
    MulStep(q, Abs(b));
  }

  // ---- mul: rounding to the nearest unit, symmetric in sign ----

  lemma NearestUnitBounds(product: nat)
    ensures -SCALE <= 2 * (NearestUnit(product) * SCALE - product) <= SCALE
  {
    Split(product, SCALE);
  }

  lemma MulIsNearest(a: Money, b: Money)
    ensures -SCALE <= 2 * (Mul(a, b) * SCALE - a * b) <= SCALE
  {
    NearestUnitBounds(Abs(a) * Abs(b));
    MulSign(a, b);
  }

  lemma MulIsSymmetric(a: Money, b: Money)
    ensures Mul(-a, b) == -Mul(a, b) == Mul(a, -b)
    ensures Mul(a, b) == Mul(b, a)
  {
    assert Abs(a) * Abs(b) == Abs(b) * Abs(a);
    if a == 0 || b == 0 { assert Abs(a) * Abs(b) == 0; }
  }

  lemma MulSign(a: int, b: int)
    ensures a * b == if (a < 0) != (b < 0) then -(Abs(a) * Abs(b)) else Abs(a) * Abs(b)
  {
    MulStep(a, b);
    MulStep(-a, b);
  }

  lemma MulNonNegative(a: Money, b: Money)
    requires a >= 0 && b >= 0
    ensures Mul(a, b) >= 0
  {
    assert Abs(a) * Abs(b) >= 0;
  }

  // ---- mulFraction: the mathematical floor for every combination of signs ----

  lemma MulFractionIsFloor(a: Money, numerator: int, denominator: int)
    requires denominator != 0
    ensures var f := MulFraction(a, numerator, denominator);
            if denominator > 0
            then f * denominator <= a * numerator < f * denominator + denominator
            else f * denominator >= a * numerator > f * denominator + denominator
  {
    var product := a * numerator;
    TruncDivBounds(product, denominator);
    Split(Abs(product), Abs(denominator));
    MulStep(TruncDiv(product, denominator) - 1, denominator);
  }

  lemma FloorUnique(x: int, d: int, f: int, g: int)
    requires d > 0
    requires f * d <= x < f * d + d && g * d <= x < g * d + d
    ensures f == g
  {
    MulLe(f, g, d);
    MulLe(g, f, d);
  }

  // The floor of a fraction of a non-negative amount grows with the numerator.
  lemma MulFractionMonotone(a: Money, n: int, m: int, denominator: int)
    requires denominator > 0 && a >= 0 && n <= m
    ensures MulFraction(a, n, denominator) <= MulFraction(a, m, denominator)
  {
    MulFractionIsFloor(a, n, denominator);
    MulFractionIsFloor(a, m, denominator);
    MulLe(n, m, a);
    MulLe(MulFraction(a, m, denominator), MulFraction(a, n, denominator), denominator);
  }

  lemma MulFractionOfWhole(a: Money, denominator: int)
    requires denominator > 0
    ensures MulFraction(a, denominator, denominator) == a
    ensures MulFraction(a, 0, denominator) == 0
  {
    MulFractionIsFloor(a, denominator, denominator);
    MulFractionIsFloor(a, 0, denominator);
    FloorUnique(a * denominator, denominator, MulFraction(a, denominator, denominator), a);
    FloorUnique(0, denominator, MulFraction(a, 0, denominator), 0);
  }

  // ---- Tick rounding: every result is on the grid and within one tick ----

  lemma MultipleIsMultiple(k: int, increment: Money)
    requires increment > 0
    ensures IsMultipleOf(k * increment, increment)
  {
    TruncDivBounds(k * increment, increment);
    Split(Abs(k * increment), increment);
    MulStep(k, increment);
    FloorUnique(Abs(k * increment), increment, Abs(k * increment) / increment, Abs(k));
  }

  lemma TickRounding(a: Money, increment: Money)
    requires increment > 0
    ensures IsMultipleOf(FloorToIncrement(a, increment), increment)
    ensures IsMultipleOf(CeilToIncrement(a, increment), increment)
    ensures IsMultipleOf(RoundToIncrement(a, increment), increment)
    ensures Abs(FloorToIncrement(a, increment)) <= Abs(a) < Abs(FloorToIncrement(a, increment)) + increment
    ensures Abs(CeilToIncrement(a, increment)) - increment < Abs(a) <= Abs(CeilToIncrement(a, increment))
    ensures -increment <= 2 * (RoundToIncrement(a, increment) - a) <= increment
  {
    var q := Abs(a) / increment;
    Split(Abs(a), increment);
    MulStep(q, increment);
    MultipleIsMultiple(q, increment);
    MultipleIsMultiple(q + 1, increment);
    MultipleIsMultiple(-q, increment);
    MultipleIsMultiple(-(q + 1), increment);
  }

  // Rounding keeps the sign, so the bounds above place the result on one side of the value.
  lemma TickRoundingSigned(a: Money, increment: Money)
    requires increment > 0
    ensures a >= 0 ==> 0 <= FloorToIncrement(a, increment) <= a <= CeilToIncrement(a, increment)
    ensures a <= 0 ==> CeilToIncrement(a, increment) <= a <= FloorToIncrement(a, increment) <= 0
  {
    var q := Abs(a) / increment;
    Split(Abs(a), increment);
    MulStep(q, increment);
    assert q * increment >= 0;
  }

  // The upward rounding of a fill is documented as toward plus infinity. It rounds the
  // magnitude up instead, so it reaches or exceeds the value exactly on this condition.
  lemma CeilReachesValueIff(a: Money, increment: Money)
    requires increment > 0
    ensures CeilToIncrement(a, increment) >= a <==> a >= 0 || IsMultipleOf(a, increment)
  {
    var q := Abs(a) / increment;
    Split(Abs(a), increment);
    MulStep(q, increment);
    TruncDivBounds(a, increment);
  }
}
