/**
 Money arithmetic: prices per million tokens, saturating int64 products and sums, one rounding, and
 the plausibility bound of the accounting step.
 */
module Pricing {
  import opened Common
  import opened DivMod
  import opened Int64
  import A = Admission

  const MILLION: int := 1_000_000

  // ---------------------------------------------------------------- saturating arithmetic

  /** The nearest int64 to an exact result. */
  function Clamp(x: int): int { if x > MAX then MAX else if x < MIN then MIN else x }

  /** Go's int64 division, whose one overflow wraps. */
  function Div64(a: int, b: int): int
    requires b != 0
  {
    Wrap(Quot(a, b))
  }

  /** saturatingMulInt64: multiply with wrap-around, divide back, compare. */
  function SaturatingMul(a: int, b: int): int {
    if a == 0 || b == 0 then 0
    else
      var p := Wrap(a * b);
      if Div64(p, b) != a then (if (a > 0) == (b > 0) then MAX else MIN) else p
  }

  /** saturatingAddInt64: add with wrap-around, see which way it moved. */
  function SaturatingAdd(a: int, b: int): int {
    var sum := Wrap(a + b);
    if b > 0 && sum < a then MAX else if b < 0 && sum > a then MIN else sum
  }

  /** roundedDivInt64: truncating quotient and remainder, then half away from zero. */
  function RoundedDiv(total: int, denom: int): int
    requires denom != 0
  {
    var q, r := Quot(total, denom), Abs(Rem(total, denom));
    if 2 * r >= denom then (if total >= 0 then q + 1 else q - 1) else q
  }

  lemma QuotOfProduct(a: int, b: int)
    requires b != 0
    ensures Quot(a * b, b) == a
  {
    AbsProduct(a, b);
    DivOfProduct(Abs(a), Abs(b));
    if a > 0 && b > 0 { assert a * b > 0; }
    if a < 0 && b < 0 { assert a * b > 0; }
    if a > 0 && b < 0 { assert a * b < 0; }
    if a < 0 && b > 0 { assert a * b < 0; }
  }

  lemma AbsProduct(a: int, b: int)
    ensures Abs(a * b) == Abs(a) * Abs(b)
  {
    if a >= 0 && b >= 0 { assert a * b >= 0; }
    if a < 0 && b < 0 { assert a * b >= 0; assert (-a) * (-b) == a * b; }
    if a >= 0 && b < 0 { assert a * b <= 0; assert a * (-b) == -(a * b); }
    if a < 0 && b >= 0 { assert a * b <= 0; assert (-a) * b == -(a * b); }
  }

  /** The remainder is smaller than the divisor. */
  lemma RemSmall(a: int, b: int)
    requires b != 0
    ensures Abs(Rem(a, b)) < Abs(b)
  {
    var x, y := Abs(a), Abs(b);
    var q := x / y;
    FloorBrackets(x, y);
    assert (q + 1) * y == q * y + y;
    MulNegate(q, b);
  }

  lemma NonZeroRanges(n: int)
    requires n != 0
    ensures Abs(n * RANGE) >= RANGE
  {
  }

  /** An overflowed product is off by at least a whole range, far more than a remainder. */
  lemma OverflowIsSeen(a: int, b: int)
    requires Fits(a) && Fits(b) && b != 0 && !Fits(a * b)
    ensures Quot(Wrap(a * b), b) != a
  {
    var x := a * b;
    var p := Wrap(x);
    WrapMultiple(x);
    RemSmall(p, b);
    NonZeroRanges((x - MIN) / RANGE);
  }

  lemma MinOverMinusOne(a: int)
    requires Fits(a) && Wrap(-a) == MIN
    ensures a == MIN
  {
    if a != MIN { assert Fits(-a); }
  }

  /** Dividing an int64 fits int64 except for the smallest value over minus one. */
  lemma QuotFits(p: int, b: int)
    requires Fits(p) && Fits(b) && b != 0 && !(p == MIN && b == -1)
    ensures Fits(Quot(p, b))
  {
    DivAtMost(Abs(p), Abs(b));
  }

  /** The post-multiply check is the exact clamp for every pair of int64 values but one. */
  lemma SaturatingMulExact(a: int, b: int)
    requires Fits(a) && Fits(b)
    ensures SaturatingMul(a, b) == Clamp(a * b) <==> !(a == MIN && b == -1)
  {
    if a != 0 && b != 0 {
      var x := a * b;
      var p := Wrap(x);
      SignOfProduct(a, b);
      if Fits(x) {
        QuotOfProduct(a, b);
      } else {
        OverflowIsSeen(a, b);
        if p == MIN && b == -1 {
          assert x == -a;
          MinOverMinusOne(a);
        } else {
          QuotFits(p, b);
        }
      }
    }
  }

  lemma SignOfProduct(a: int, b: int)
    requires a != 0 && b != 0
    ensures a * b != 0 && (a * b > 0 <==> (a > 0) == (b > 0))
  {
    if a > 0 && b > 0 { assert a * b > 0; }
    if a < 0 && b < 0 { assert a * b > 0; }
    if a > 0 && b < 0 { assert a * b < 0; }
    if a < 0 && b > 0 { assert a * b < 0; }
  }

  /** The sum's test is the exact clamp for every pair. */
  lemma SaturatingAddExact(a: int, b: int)
    requires Fits(a) && Fits(b)
    ensures SaturatingAdd(a, b) == Clamp(a + b)
  {
    if !Fits(a + b) {
      if a + b > MAX { WrapShift(a + b - RANGE, 1); } else { WrapShift(a + b + RANGE, -1); }
    }
  }

  // ---------------------------------------------------------------- rounding

  /** The nearest integer to `n / d`, halves upward; for `n >= 0` that is away from zero. */
  function Nearest(n: int, d: int): int
    requires d > 0
  {
    (2 * n + d) / (2 * d)
  }

  lemma NearestIsNearest(n: int, d: int)
    requires d > 0
    ensures -d <= 2 * (n - Nearest(n, d) * d) < d
  {
    var m, k := 2 * n + d, 2 * d;
    var q := m / k;
    assert m == q * k + m % k;
    assert q * k == 2 * (q * d);
  }

  /** On a non-negative total the quotient-and-remainder form is rounding to nearest, halves up. */
  lemma RoundedDivIsNearest(total: int, d: int)
    requires total >= 0 && d > 0
    ensures RoundedDiv(total, d) == Nearest(total, d)
  {
    var q, r := total / d, total % d;
    assert total == q * d + r;
    assert Quot(total, d) == q;
    assert Rem(total, d) == r;
    var m, k := 2 * total + d, 2 * d;
    assert m == q * k + (2 * r + d);
    if 2 * r >= d {
      assert m == (q + 1) * k + (2 * r - d);
      QuotientUnique(m, k, q + 1, 2 * r - d);
    } else {
      QuotientUnique(m, k, q, 2 * r + d);
    }
  }

  lemma NearestMonotone(m: int, n: int, d: int)
    requires d > 0 && m <= n
    ensures Nearest(m, d) <= Nearest(n, d)
  {
    FloorMonotone(2 * m + d, 2 * n + d, 2 * d);
  }

  // ---------------------------------------------------------------- the cost of one request

  /** computeCostMicros, from the two prices in micro-USD per million tokens. */
  function CostMicros(inMicros: int, outMicros: int, u: A.Usage): int {
    RoundedDiv(SaturatingAdd(SaturatingMul(u.prompt, inMicros), SaturatingMul(u.completion, outMicros)), MILLION)
  }

  /** The true cost in micro-USD, before rounding, times a million. */
  function TrueProduct(inMicros: int, outMicros: int, u: A.Usage): int {
    u.prompt * inMicros + u.completion * outMicros
  }

  predicate ValidMicros(p: int) { 0 <= p <= MAX }

  predicate ValidUsage(u: A.Usage) { 0 <= u.prompt <= MAX && 0 <= u.completion <= MAX }

  lemma ProductNonNegative(a: int, b: int)
    requires a >= 0 && b >= 0
    ensures a * b >= 0
  {
  }

  /** The computed cost is the exact one, cut off at the largest int64 before the division. */
  lemma CostIsCutOff(inMicros: int, outMicros: int, u: A.Usage)
    requires ValidMicros(inMicros) && ValidMicros(outMicros) && ValidUsage(u)
    ensures TrueProduct(inMicros, outMicros, u) >= 0
    ensures CostMicros(inMicros, outMicros, u) == Nearest(Min(TrueProduct(inMicros, outMicros, u), MAX), MILLION)
  {
    var x, y := u.prompt * inMicros, u.completion * outMicros;
    ProductNonNegative(u.prompt, inMicros);
    ProductNonNegative(u.completion, outMicros);
    SaturatingMulExact(u.prompt, inMicros);
    SaturatingMulExact(u.completion, outMicros);
    SaturatingAddExact(Clamp(x), Clamp(y));
    RoundedDivIsNearest(Clamp(Clamp(x) + Clamp(y)), MILLION);
  }

  /** A saturated cost is implausible. */
  lemma SaturatedIsImplausible()
    ensures Nearest(MAX, MILLION) > A.MAX_COST
  {
  }

  /**
   What accounting adds to a cost counter is the nearest micro-USD of the true product sum, or nothing
   when that exceeds the plausibility cap: no wrapped or saturated figure is ever written.
   */
  lemma WrittenCostExact(inMicros: int, outMicros: int, u: A.Usage)
    requires ValidMicros(inMicros) && ValidMicros(outMicros) && ValidUsage(u)
    ensures var exact := Nearest(TrueProduct(inMicros, outMicros, u), MILLION);
            A.Plausible(CostMicros(inMicros, outMicros, u), A.MAX_COST) == if exact <= A.MAX_COST then exact else 0
  {
    CostIsCutOff(inMicros, outMicros, u);
    PlausibleIsExact(TrueProduct(inMicros, outMicros, u), CostMicros(inMicros, outMicros, u));
  }

  lemma PlausibleIsExact(t: int, cost: int)
    requires t >= 0 && cost == Nearest(Min(t, MAX), MILLION)
    ensures A.Plausible(cost, A.MAX_COST) == if Nearest(t, MILLION) <= A.MAX_COST then Nearest(t, MILLION) else 0
  {
    NearestMonotone(0, t, MILLION);
    if t > MAX {
      SaturatedIsImplausible();
      NearestMonotone(MAX, t, MILLION);
    }
  }

  lemma ProductMonotone(in1: int, out1: int, in2: int, out2: int, u: A.Usage)
    requires in1 <= in2 && out1 <= out2 && u.prompt >= 0 && u.completion >= 0
    ensures TrueProduct(in1, out1, u) <= TrueProduct(in2, out2, u)
  {
    MulMonotone(in1, in2, u.prompt);
    MulMonotone(out1, out2, u.completion);
  }

  /** A price that is no dearer on either side costs no more, for every usage, saturation included. */
  lemma CostMonotone(in1: int, out1: int, in2: int, out2: int, u: A.Usage)
    requires ValidMicros(in1) && ValidMicros(out1) && ValidMicros(in2) && ValidMicros(out2) && ValidUsage(u)
    requires in1 <= in2 && out1 <= out2
    ensures CostMicros(in1, out1, u) <= CostMicros(in2, out2, u)
  {
    CostIsCutOff(in1, out1, u);
    CostIsCutOff(in2, out2, u);
    ProductMonotone(in1, out1, in2, out2, u);
    NearestMonotone(Min(TrueProduct(in1, out1, u), MAX), Min(TrueProduct(in2, out2, u), MAX), MILLION);
  }

  // ---------------------------------------------------------------- prices

  /** USD per million tokens, taken as exact reals. */
  datatype Price = Price(inputPerM: real, outputPerM: real)

  /** math.Round(p * 1e6) for a non-negative price. */
  function Micros(p: real): int { (p * 1000000.0 + 0.5).Floor }

  /** What validatePricing accepts, with the scaled price inside int64. */
  predicate ValidPrice(p: Price) {
    p.inputPerM >= 0.0 && p.outputPerM >= 0.0 && ValidMicros(Micros(p.inputPerM)) && ValidMicros(Micros(p.outputPerM))
  }

  lemma MicrosMonotone(p: real, q: real)
    requires p <= q
    ensures Micros(p) <= Micros(q)
  {
    var a, b := p * 1000000.0 + 0.5, q * 1000000.0 + 0.5;
    assert a <= b;
    assert a.Floor as real <= a < a.Floor as real + 1.0;
    assert b.Floor as real <= b < b.Floor as real + 1.0;
  }

  function CostOf(p: Price, u: A.Usage): int { CostMicros(Micros(p.inputPerM), Micros(p.outputPerM), u) }

  /**
   The three price layers: operator overrides (a nil entry is no entry), the built-in table, and the
   generated table in whole micro-USD, where a row with neither side positive says nothing.
   */
  datatype Catalog = Catalog(overrides: map<string, Option<Price>>, builtin: map<string, Price>,
                             generated: map<string, (int, int)>)

  datatype Source = Override | Builtin | Generated

  function LookupPricingSource(model: string, cat: Catalog): Option<(Price, Source)> {
    if model in cat.overrides && cat.overrides[model].Some? then Some((cat.overrides[model].value, Override))
    else if model in cat.builtin then Some((cat.builtin[model], Builtin))
    else if model in cat.generated && (cat.generated[model].0 > 0 || cat.generated[model].1 > 0) then
      Some((Price(cat.generated[model].0 as real / 1000000.0, cat.generated[model].1 as real / 1000000.0), Generated))
    else None
  }

  function LookupPricing(model: string, cat: Catalog): Option<Price> {
    match LookupPricingSource(model, cat)
    case None => None
    case Some((p, _)) => Some(p)
  }

  /** An operator's own price wins, then the built-in table, then a generated row that prices some side. */
  lemma {:induction false} PricePrecedence(model: string, cat: Catalog, p: Price)
    ensures model in cat.overrides && cat.overrides[model] == Some(p) ==> LookupPricingSource(model, cat) == Some((p, Override))
    ensures (model in cat.overrides ==> cat.overrides[model].None?) && model in cat.builtin && cat.builtin[model] == p ==>
              LookupPricingSource(model, cat) == Some((p, Builtin))
    ensures LookupPricingSource(model, cat).Some? && LookupPricingSource(model, cat).value.1 == Generated <==>
              (model in cat.overrides ==> cat.overrides[model].None?) && model !in cat.builtin && model in cat.generated &&
              (cat.generated[model].0 > 0 || cat.generated[model].1 > 0)
    ensures LookupPricing(model, cat).None? <==>
              (model in cat.overrides ==> cat.overrides[model].None?) && model !in cat.builtin &&
              (model in cat.generated ==> cat.generated[model].0 <= 0 && cat.generated[model].1 <= 0)
  {
  }

  /** A generated row is priced per million tokens in USD, its figures being micro-USD. */
  lemma {:induction false} GeneratedPrice(model: string, cat: Catalog)
    requires LookupPricingSource(model, cat).Some? && LookupPricingSource(model, cat).value.1 == Generated && model in cat.generated
    ensures var p := LookupPricingSource(model, cat).value.0;
            p.inputPerM * 1000000.0 == cat.generated[model].0 as real && p.outputPerM * 1000000.0 == cat.generated[model].1 as real
  {
  }

  /** The scaled price is the nearest whole number. */
  lemma MicrosIsNearest(p: real)
    ensures p * 1000000.0 - 0.5 < Micros(p) as real <= p * 1000000.0 + 0.5
  {
  }

  /** A generated row bills exactly its whole micro-USD figures. */
  lemma GeneratedPriceExact(n: nat)
    ensures Micros(n as real / 1000000.0) == n
  {
    var x := n as real / 1000000.0;
    assert x * 1000000.0 == n as real;
  }
}
