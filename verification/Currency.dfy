/** Money, decimal rates and exact currency conversion: `src/domain/currency.ts` and
    `src/domain/commandLimits.ts`. */
module Currency {
  import opened Arithmetic
  import opened Wrappers

  const MAX_SAFE := 9_007_199_254_740_991

  predicate IsSafe(x: int) {
    -MAX_SAFE <= x <= MAX_SAFE
  }

  datatype Currency = USD | EUR | RUB | KZT | THB | VND | IDR | GEL

  function MinorUnits(c: Currency): nat {
    if c.VND? then 0 else 2
  }

  function DisplayDigits(c: Currency): nat {
    if c.VND? || c.IDR? then 0 else 2
  }

  function Pow10(k: nat): (p: nat)
    ensures p >= 1
  {
    if k == 0 then 1 else 10 * Pow10(k - 1)
  }

  function MinorUnitScale(c: Currency): nat {
    Pow10(MinorUnits(c))
  }

  // ---------------------------------------------------------------- decimal strings

  /** The decimal string with the digits of `units` and its point before the last `places` of them. A
      string without a superfluous leading zero is one such pair and no other. */
  datatype Decimal = Decimal(units: nat, places: nat)

  function DigitCount(n: nat): nat {
    if n < 10 then 1 else 1 + DigitCount(n / 10)
  }

  function Max(a: nat, b: nat): nat { if a < b then b else a }

  /** The length of the string: at least one digit stands before the point. */
  function Length(d: Decimal): nat {
    Max(DigitCount(d.units), d.places + 1) + if d.places > 0 then 1 else 0
  }

  const MAX_RATE_LENGTH := 64

  predicate IsPositiveDecimal(d: Decimal) {
    d.units > 0 && Length(d) <= MAX_RATE_LENGTH
  }

  type Rate = d: Decimal | IsPositiveDecimal(d) witness Decimal(1, 0)

  const ONE := Decimal(1, 0)

  lemma {:induction false} DigitCountBound(n: nat, k: nat)
    requires k >= 1
    ensures DigitCount(n) <= k <==> n < Pow10(k)
    decreases k
  {
    if n < 10 {
      assert Pow10(k) >= 10 * Pow10(k - 1);
    } else if k == 1 {
      assert Pow10(1) == 10 * Pow10(0);
    } else {
      DigitCountBound(n / 10, k - 1);
      assert n == 10 * (n / 10) + n % 10;
    }
  }

  // ---------------------------------------------------------------- fractions

  datatype Fraction = Fraction(numerator: nat, denominator: nat)

  ghost predicate Divides(d: nat, n: nat) {
    d > 0 && n % d == 0
  }

  ghost predicate IsGcd(g: nat, a: nat, b: nat) {
    && Divides(g, a) && Divides(g, b)
    && forall d: nat :: Divides(d, a) && Divides(d, b) ==> Divides(d, g)
  }

  lemma {:induction false} DividesDividend(d: nat, a: nat, b: nat)
    requires b > 0 && Divides(d, b) && Divides(d, a % b)
    ensures Divides(d, a)
  {
    var q, r := a / b, a % b;
    var i := DivisibleIsMultiple(b, d);
    var j := DivisibleIsMultiple(r, d);
    assert a == q * b + r;
    assert q * (i * d) == (q * i) * d;
    assert (q * i + j) * d == (q * i) * d + j * d;
    MultipleIsDivisible(q * i + j, d);
  }

  lemma {:induction false} DividesRemainder(d: nat, a: nat, b: nat)
    requires b > 0 && Divides(d, b) && Divides(d, a)
    ensures Divides(d, a % b)
  {
    var q, r := a / b, a % b;
    var i := DivisibleIsMultiple(b, d);
    var j := DivisibleIsMultiple(a, d);
    assert r == a - q * b;
    assert q * (i * d) == (q * i) * d;
    assert (j - q * i) * d == j * d - (q * i) * d;
    MultipleIsDivisible(j - q * i, d);
  }

  lemma {:induction false} GcdStep(g: nat, a: nat, b: nat)
    requires b > 0 && IsGcd(g, b, a % b)
    ensures IsGcd(g, a, b)
  {
    DividesDividend(g, a, b);
    forall d: nat | Divides(d, a) && Divides(d, b)
      ensures Divides(d, g)
    {
      DividesRemainder(d, a, b);
    }
  }

  method Gcd(left: nat, right: nat) returns (g: nat)
    requires left > 0
    ensures IsGcd(g, left, right)
  {
    var a, b := left, right;
    while b != 0
      invariant a > 0
      invariant forall g: nat :: IsGcd(g, a, b) ==> IsGcd(g, left, right)
      decreases b
    {
      forall g: nat | IsGcd(g, b, a % b)
        ensures IsGcd(g, a, b)
      {
        GcdStep(g, a, b);
      }
      var remainder := a % b;
      a := b;
      b := remainder;
    }
    assert a % a == 0 by { MultipleIsDivisible(1, a); }
    assert IsGcd(a, a, 0);
    return a;
  }

  /** A rate as a fraction in lowest terms. */
  method DecimalRate(rate: Rate) returns (f: Fraction)
    ensures f.numerator > 0 && f.denominator > 0
    ensures f.numerator * Pow10(rate.places) == rate.units * f.denominator
    ensures IsGcd(1, f.numerator, f.denominator)
  {
    var numerator, denominator := rate.units, Pow10(rate.places);
    var divisor := Gcd(numerator, denominator);
    QuotientsByGcd(numerator, denominator, divisor);
    f := Fraction(numerator / divisor, denominator / divisor);
  }

  lemma {:induction false} QuotientsByGcd(numerator: nat, denominator: nat, g: nat)
    requires numerator > 0 && denominator > 0 && IsGcd(g, numerator, denominator)
    ensures numerator / g > 0 && denominator / g > 0
    ensures (numerator / g) * denominator == numerator * (denominator / g)
    ensures IsGcd(1, numerator / g, denominator / g)
  {
    var n, d := numerator / g, denominator / g;
    assert numerator == n * g && denominator == d * g;
    assert n > 0 by { assert n <= 0 ==> n * g <= 0; }
    assert d > 0 by { assert d <= 0 ==> d * g <= 0; }
    assert n * (d * g) == (n * g) * d;
    forall c: nat | Divides(c, n) && Divides(c, d)
      ensures Divides(c, 1)
    {
      ReducedIsCoprime(c, n, d, g, numerator, denominator);
    }
  }

  lemma {:induction false} ReducedIsCoprime(c: nat, n: nat, d: nat, g: nat, numerator: nat, denominator: nat)
    requires Divides(c, n) && Divides(c, d)
    requires numerator == n * g && denominator == d * g
    requires IsGcd(g, numerator, denominator)
    ensures Divides(c, 1)
  {
    var i := DivisibleIsMultiple(n, c);
    var j := DivisibleIsMultiple(d, c);
    assert numerator == (i * c) * g == i * (c * g);
    assert denominator == (j * c) * g == j * (c * g);
    assert c * g > 0;
    MultipleIsDivisible(i, c * g);
    MultipleIsDivisible(j, c * g);
    assert Divides(c * g, g);
    var k := DivisibleIsMultiple(g, c * g);
    assert g == (k * c) * g;
    assert k * c == 1 by {
      if k * c > 1 { MultiplyKeepsOrder(2, k * c, g); }
      if k * c < 1 { MultiplyKeepsOrder(k * c, 0, g); }
    }
    MultipleIsDivisible(k, c);
  }

  // ---------------------------------------------------------------- rounding

  datatype RoundingMode = HalfAwayFromZero | TowardZero

  function RoundMagnitude(numerator: nat, denominator: nat, mode: RoundingMode): nat
    requires denominator > 0
  {
    var quotient := numerator / denominator;
    if mode.HalfAwayFromZero? && 2 * (numerator % denominator) >= denominator then quotient + 1 else quotient
  }

  function RoundRatio(numerator: int, denominator: nat, mode: RoundingMode): int
    requires denominator > 0
  {
    if numerator < 0 then -(RoundMagnitude(-numerator, denominator, mode) as int)
    else RoundMagnitude(numerator, denominator, mode)
  }

  /** Which integers a mode rounds to, without division: the nearest, ties upwards, or the floor. */
  ghost predicate IsRounded(q: int, n: nat, d: nat, mode: RoundingMode) {
    if mode.HalfAwayFromZero? then (2 * q - 1) * d <= 2 * n < (2 * q + 1) * d
    else q * d <= n < (q + 1) * d
  }

  lemma {:induction false} RoundMagnitudeIsRounded(n: nat, d: nat, mode: RoundingMode)
    requires d > 0
    ensures IsRounded(RoundMagnitude(n, d, mode), n, d, mode)
  {
    var q := n / d;
    assert n == q * d + n % d;
    assert (2 * q - 1) * d == 2 * (q * d) - d;
    assert (2 * q + 1) * d == 2 * (q * d) + d;
    assert (2 * (q + 1) - 1) * d == 2 * (q * d) + d;
    assert (2 * (q + 1) + 1) * d == 2 * (q * d) + 3 * d;
    assert (q + 1) * d == q * d + d;
  }

  lemma {:induction false} RoundedAtMost(q1: int, n1: nat, d1: nat, q2: int, n2: nat, d2: nat, mode: RoundingMode)
    requires d1 > 0 && d2 > 0
    requires n1 * d2 == n2 * d1
    requires IsRounded(q1, n1, d1, mode) && IsRounded(q2, n2, d2, mode)
    ensures q1 <= q2
  {
    if mode.HalfAwayFromZero? {
      assert (2 * n1) * d2 == 2 * (n1 * d2) == 2 * (n2 * d1) == (2 * n2) * d1;
      CrossBound(2 * q1 - 1, 2 * n1, d1, 2 * q2 + 1, 2 * n2, d2);
    } else {
      CrossBound(q1, n1, d1, q2 + 1, n2, d2);
    }
  }

  lemma {:induction false} CrossBound(a: int, n1: nat, d1: nat, b: int, n2: nat, d2: nat)
    requires d1 > 0 && d2 > 0 && n1 * d2 == n2 * d1
    requires a * d1 <= n1 && n2 < b * d2
    ensures a < b
  {
    MultiplyKeepsOrder(a * d1, n1, d2);
    StrictProduct(n2, b * d2, d1);
    assert (a * d1) * d2 == a * (d1 * d2);
    assert (b * d2) * d1 == b * (d1 * d2);
    CancelProduct(a, b, d1 * d2);
  }

  /** Rounding depends on the ratio alone: reducing a fraction first never changes a converted amount. */
  lemma {:induction false} RoundRatioOfEqualRatios(n1: int, d1: nat, n2: int, d2: nat, mode: RoundingMode)
    requires d1 > 0 && d2 > 0
    requires n1 * d2 == n2 * d1
    ensures RoundRatio(n1, d1, mode) == RoundRatio(n2, d2, mode)
  {
    SignOfProduct(n1, d2);
    SignOfProduct(n2, d1);
    var m1: nat, m2: nat := if n1 < 0 then -n1 else n1, if n2 < 0 then -n2 else n2;
    assert m1 * d2 == m2 * d1;
    RoundMagnitudeIsRounded(m1, d1, mode);
    RoundMagnitudeIsRounded(m2, d2, mode);
    RoundedAtMost(RoundMagnitude(m1, d1, mode), m1, d1, RoundMagnitude(m2, d2, mode), m2, d2, mode);
    RoundedAtMost(RoundMagnitude(m2, d2, mode), m2, d2, RoundMagnitude(m1, d1, mode), m1, d1, mode);
  }

  // ---------------------------------------------------------------- conversion

  /** Target minor units over source minor units, before rounding. Rates are major units per USD. */
  function RatioNumerator(from: Currency, to: Currency, fromRate: Rate, toRate: Rate): nat {
    toRate.units * Pow10(fromRate.places) * MinorUnitScale(to)
  }

  function RatioDenominator(from: Currency, to: Currency, fromRate: Rate, toRate: Rate): (d: nat)
    ensures d > 0
  {
    PositiveProduct(Pow10(toRate.places), fromRate.units);
    PositiveProduct(Pow10(toRate.places) * fromRate.units, MinorUnitScale(from));
    Pow10(toRate.places) * fromRate.units * MinorUnitScale(from)
  }

  /** The converted amount; `None` when the source amount or the result is not a safe integer. */
  function Converted(amount: int, from: Currency, to: Currency, fromRate: Rate, toRate: Rate,
                     mode: RoundingMode := HalfAwayFromZero): Option<int>
  {
    if !IsSafe(amount) then None
    else if from == to then Some(amount)
    else
      var value := RoundRatio(amount * RatioNumerator(from, to, fromRate, toRate),
                              RatioDenominator(from, to, fromRate, toRate), mode);
      if IsSafe(value) then Some(value) else None
  }

  /** The source's order of work, with both rates reduced to lowest terms before they are multiplied. */
  method ConvertMoneyAtBaseRates(amount: int, from: Currency, to: Currency, fromUsdRate: Rate,
                                 toUsdRate: Rate, mode: RoundingMode) returns (r: Option<int>)
    ensures r == Converted(amount, from, to, fromUsdRate, toUsdRate, mode)
  {
    if !IsSafe(amount) {
      return None;
    }
    if from == to {
      return Some(amount);
    }
    var fromRate := DecimalRate(fromUsdRate);
    var toRate := DecimalRate(toUsdRate);
    PositiveProduct(toRate.denominator, fromRate.numerator);
    PositiveProduct(toRate.denominator * fromRate.numerator, MinorUnitScale(from));
    var numerator := amount * toRate.numerator * fromRate.denominator * MinorUnitScale(to);
    var denominator := toRate.denominator * fromRate.numerator * MinorUnitScale(from);
    var converted := RoundRatio(numerator, denominator, mode);
    ReducedRatesGiveTheSameRatio(amount, from, to, fromUsdRate, toUsdRate, fromRate, toRate);
    RoundRatioOfEqualRatios(numerator, denominator,
                            amount * RatioNumerator(from, to, fromUsdRate, toUsdRate),
                            RatioDenominator(from, to, fromUsdRate, toUsdRate), mode);
    return if IsSafe(converted) then Some(converted) else None;
  }

  lemma {:induction false} ReducedRatesGiveTheSameRatio(amount: int, from: Currency, to: Currency, fromUsd: Rate, toUsd: Rate,
                                     f: Fraction, t: Fraction)
    requires f.numerator * Pow10(fromUsd.places) == fromUsd.units * f.denominator
    requires t.numerator * Pow10(toUsd.places) == toUsd.units * t.denominator
    ensures (amount * t.numerator * f.denominator * MinorUnitScale(to)) * RatioDenominator(from, to, fromUsd, toUsd)
         == (amount * RatioNumerator(from, to, fromUsd, toUsd)) * (t.denominator * f.numerator * MinorUnitScale(from))
  {
    hide Pow10, MinorUnitScale;
    SameRatio(amount, t.numerator, f.denominator, MinorUnitScale(to),
              Pow10(toUsd.places), fromUsd.units, MinorUnitScale(from),
              toUsd.units, Pow10(fromUsd.places), t.denominator, f.numerator);
  }

  lemma {:induction false} SameRatio(a: int, tn: int, fd: int, mt: int, pt: int, uf: int, mf: int, ut: int, pf: int, td: int, fn: int)
    requires tn * pt == ut * td && fn * pf == uf * fd
    ensures (a * tn * fd * mt) * (pt * uf * mf) == (a * (ut * pf * mt)) * (td * fn * mf)
  {
    Regroup(a, tn, fd, mt, pt, uf, mf);
    Regroup(a, ut, pf, mt, td, fn, mf);
    FourFactors(a, ut, pf, mt);
    assert fd * uf == pf * fn;
  }

  lemma {:induction false} FourFactors(a: int, x: int, y: int, z: int)
    ensures a * (x * y * z) == a * x * y * z == (a * z) * (x * y)
  {
    var p := x * y;
    assert a * x * y == a * p;
    assert a * (p * z) == (a * p) * z == (a * z) * p;
  }

  lemma {:induction false} Regroup(a: int, x: int, y: int, z: int, e: int, f: int, g: int)
    ensures (a * x * y * z) * (e * f * g) == ((a * z) * g) * ((x * e) * (y * f))
  {
    FourFactors(a, x, y, z);
    var ef := e * f;
    assert ef * g == g * ef;
    ProductOfProducts(a * z, x * y, g, ef);
    ProductOfProducts(x, y, e, f);
  }

  /** The credited amount of an own-currency exchange is within half a minor unit of the exact value. */
  lemma {:induction false} ConversionIsNearest(amount: int, from: Currency, to: Currency, fromRate: Rate, toRate: Rate)
    requires amount >= 0 && from != to
    requires Converted(amount, from, to, fromRate, toRate).Some?
    ensures var credited := Converted(amount, from, to, fromRate, toRate).value;
            var n := RatioNumerator(from, to, fromRate, toRate);
            var d := RatioDenominator(from, to, fromRate, toRate);
            credited >= 0 && IsNearest(credited, amount * n, d)
  {
    var n := RatioNumerator(from, to, fromRate, toRate);
    var d := RatioDenominator(from, to, fromRate, toRate);
    ProductIsNatural(amount, n);
    RoundedIsNear(amount * n, d);
  }

  /** `q` is within half a unit of `n / d`. */
  ghost predicate IsNearest(q: int, n: int, d: int) {
    -d < 2 * (q * d - n) <= d
  }

  lemma {:induction false} RoundedIsNear(n: int, d: nat)
    requires n >= 0 && d > 0
    ensures RoundRatio(n, d, HalfAwayFromZero) >= 0
    ensures IsNearest(RoundRatio(n, d, HalfAwayFromZero), n, d)
  {
    var q := RoundMagnitude(n, d, HalfAwayFromZero);
    RoundMagnitudeIsRounded(n, d, HalfAwayFromZero);
    assert (2 * q as int - 1) * d == 2 * (q * d) - d;
    assert (2 * q + 1) * d == 2 * (q * d) + d;
  }

  // ---------------------------------------------------------------- the printed quote

  const FX_RATE_DECIMAL_PLACES := 18

  /** The string with its trailing fractional zeros removed. */
  function Trim(d: Decimal): Decimal
    decreases d.places
  {
    if d.places > 0 && d.units % 10 == 0 then Trim(Decimal(d.units / 10, d.places - 1)) else d
  }

  function QuoteNumerator(fromRate: Rate, toRate: Rate): nat {
    toRate.units * Pow10(fromRate.places)
  }

  function QuoteDenominator(fromRate: Rate, toRate: Rate): (d: nat)
    ensures d > 0
  {
    PositiveProduct(Pow10(toRate.places), fromRate.units);
    Pow10(toRate.places) * fromRate.units
  }

  /** Target major units per source major unit, in units of 10^-18, ties upwards. */
  function ScaledQuote(fromRate: Rate, toRate: Rate): nat {
    RoundMagnitude(QuoteNumerator(fromRate, toRate) * Pow10(FX_RATE_DECIMAL_PLACES),
                   QuoteDenominator(fromRate, toRate), HalfAwayFromZero)
  }

  function QuoteCrossRate(fromRate: Rate, toRate: Rate): Decimal {
    Trim(Decimal(ScaledQuote(fromRate, toRate), FX_RATE_DECIMAL_PLACES))
  }

  /** Trimming keeps the value and never lengthens the string. */
  lemma {:induction false} TrimKeepsValue(d: Decimal)
    ensures Trim(d).places <= d.places
    ensures d.units == Trim(d).units * Pow10(d.places - Trim(d).places)
    ensures Length(Trim(d)) <= Length(d)
    decreases d.places
  {
    if d.places > 0 && d.units % 10 == 0 {
      var shorter := Decimal(d.units / 10, d.places - 1);
      TrimKeepsValue(shorter);
      var t := Trim(d);
      var p := Pow10(d.places - 1 - t.places);
      assert d.units == 10 * (t.units * p) == t.units * (10 * p);
      assert DigitCount(shorter.units) <= DigitCount(d.units);
    } else {
      assert Pow10(0) == 1;
    }
  }

  lemma {:induction false} Pow10Values()
    ensures Pow10(0) == 1 && Pow10(2) == 100
    ensures Pow10(18) == 1_000_000_000_000_000_000
    ensures Pow10(36) == Pow10(18) * Pow10(18)
  {
    assert Pow10(4) == 10_000;
    assert Pow10(8) == 100_000_000;
    assert Pow10(12) == 1_000_000_000_000;
    assert Pow10(16) == 10_000_000_000_000_000;
    assert Pow10(18) == 1_000_000_000_000_000_000;
    assert Pow10(22) == Pow10(18) * 10_000;
    assert Pow10(26) == Pow10(18) * 100_000_000;
    assert Pow10(30) == Pow10(18) * 1_000_000_000_000;
    assert Pow10(34) == Pow10(18) * 10_000_000_000_000_000;
    assert Pow10(36) == Pow10(18) * 1_000_000_000_000_000_000;
  }

  lemma {:induction false} PowersMultiply(m: nat, n: nat)
    ensures Pow10(m + n) == Pow10(m) * Pow10(n)
    decreases n
  {
    if n > 0 {
      PowersMultiply(m, n - 1);
      TenTimesProduct(Pow10(m), Pow10(n - 1));
    }
  }

  lemma {:induction false} TenTimesProduct(a: int, b: int)
    ensures 10 * (a * b) == a * (10 * b)
  {
  }

  /** A conversion that credits anything at all has a printable quote: the eighteen-place rate is
      positive and at most 64 characters long, whatever the two base rates are. */
  lemma {:induction false} NonZeroConversionHasQuote(amount: int, from: Currency, to: Currency, fromRate: Rate, toRate: Rate)
    requires from != to && 0 < amount <= MAX_SAFE
    requires Converted(amount, from, to, fromRate, toRate).Some?
    requires Converted(amount, from, to, fromRate, toRate).value != 0
    ensures IsPositiveDecimal(QuoteCrossRate(fromRate, toRate))
  {
    var c := Converted(amount, from, to, fromRate, toRate).value;
    var N, D := QuoteNumerator(fromRate, toRate), QuoteDenominator(fromRate, toRate);
    var mt, mf := MinorUnitScale(to), MinorUnitScale(from);
    Pow10Values();
    assert 1 <= mt <= 100 && 1 <= mf <= 100;
    ConversionIsNearest(amount, from, to, fromRate, toRate);
    assert RatioNumerator(from, to, fromRate, toRate) == N * mt;
    assert RatioDenominator(from, to, fromRate, toRate) == D * mf;
    QuoteBounds(amount, c, N, D, mt, mf);
    var scaled := ScaledQuote(fromRate, toRate);
    RoundMagnitudeIsRounded(N * Pow10(18), D, HalfAwayFromZero);
    ScaledIsPositive(scaled, N, D);
    ScaledIsShort(scaled, N, D);
    var long := Decimal(scaled, 18);
    DigitCountBound(scaled, 37);
    assert Length(long) <= 38;
    TrimKeepsValue(long);
    var k := Pow10(18 - Trim(long).places);
    assert Trim(long).units == 0 ==> Trim(long).units * k == 0;
  }

  /** The bounds that a credited amount between 1 and 2^53 - 1 puts on the exact cross rate N / D. */
  lemma {:induction false} QuoteBounds(amount: int, c: int, N: nat, D: nat, mt: nat, mf: nat)
    requires 0 < amount <= MAX_SAFE && 1 <= c <= MAX_SAFE && D > 0
    requires 1 <= mt <= 100 && 1 <= mf <= 100
    requires -(D * mf) < 2 * (c * (D * mf) - amount * (N * mt)) <= D * mf
    ensures D <= 200 * MAX_SAFE * N
    ensures N <= 200 * MAX_SAFE * D
  {
    var E, Y := D * mf, N * mt;
    MultiplyKeepsOrder(1, mf, D);
    MultiplyKeepsOrder(mf, 100, D);
    MultiplyKeepsOrder(1, mt, N);
    MultiplyKeepsOrder(mt, 100, N);
    MultiplyKeepsOrder(1, c, E);
    MultiplyKeepsOrder(c, MAX_SAFE, E);
    MultiplyKeepsOrder(1, amount, Y);
    MultiplyKeepsOrder(amount, MAX_SAFE, Y);
  }

  lemma {:induction false} ScaledIsPositive(scaled: nat, N: nat, D: nat)
    requires D > 0 && D <= 200 * MAX_SAFE * N
    requires IsRounded(scaled, N * Pow10(18), D, HalfAwayFromZero)
    ensures scaled > 0
  {
    Pow10Values();
  }

  lemma {:induction false} ScaledIsShort(scaled: nat, N: nat, D: nat)
    requires D > 0 && N <= 200 * MAX_SAFE * D
    requires IsRounded(scaled, N * Pow10(18), D, HalfAwayFromZero)
    ensures scaled < Pow10(37)
  {
    Pow10Values();
    var big := 2_000_000_000_000_000_000;
    assert N <= big * D;
    assert N * Pow10(18) <= (big * Pow10(18)) * D;
    assert (2 * scaled - 1) * D <= (2 * big * Pow10(18)) * D;
    if 2 * scaled - 1 > 2 * big * Pow10(18) {
      StrictProduct(2 * big * Pow10(18), 2 * scaled - 1, D);
    }
    assert Pow10(37) == 10 * Pow10(36);
  }

  // ---------------------------------------------------------------- the per-command limit

  const MAX_COMMAND_USD_MINOR := 10_000_000

  predicate WithinCommandUsdLimit(amount: nat, currency: Currency, rate: Rate) {
    amount * MinorUnitScale(USD) * Pow10(rate.places)
      <= MAX_COMMAND_USD_MINOR * MinorUnitScale(currency) * rate.units
  }
}
