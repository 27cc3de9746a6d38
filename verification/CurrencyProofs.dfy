/** What a conversion, a quote and the limit of a command mean in money: amounts in major units and rates as
    real numbers, apart from the integer fractions that compute them. */
module CurrencyProofs {
  import opened Arithmetic
  import opened Wrappers
  import opened Currency

  /** ISO 4217: the dong has no minor unit, the other currencies have hundredths. */
  function OneMajorUnit(c: Currency): (r: real)
    ensures r >= 1.0
  {
    match c
    case VND => 1.0
    case _ => 100.0
  }

  function TenTo(k: nat): (r: real)
    ensures r >= 1.0
  {
    if k == 0 then 1.0 else 10.0 * TenTo(k - 1)
  }

  /** The number that a decimal string denotes. */
  function RateValue(d: Decimal): real {
    d.units as real / TenTo(d.places)
  }

  /** The amount in major units. */
  function Major(amount: int, c: Currency): real {
    amount as real / OneMajorUnit(c)
  }

  // ---------------------------------------------------------------- products of reals, step by step

  function Times(a: real, b: real): real { a * b }

  lemma {:induction false} Commute(a: real, b: real)
    ensures Times(a, b) == Times(b, a)
  {
  }

  lemma {:induction false} Associate(a: real, b: real, c: real)
    ensures Times(Times(a, b), c) == Times(a, Times(b, c))
  {
    var x := b * c;
    assert (a * b) * c == a * x;
  }

  lemma {:induction false} Exchange(a: real, b: real, c: real, d: real)
    ensures Times(Times(a, b), Times(c, d)) == Times(Times(a, c), Times(b, d))
  {
    hide Times;
    Associate(a, b, Times(c, d));
    Associate(b, c, d);
    Commute(b, c);
    Associate(c, b, d);
    Associate(a, c, Times(b, d));
  }

  lemma {:induction false} PositiveTimes(a: real, b: real)
    requires a > 0.0 && b > 0.0
    ensures Times(a, b) > 0.0
  {
  }

  lemma {:induction false} KeepsSign(x: real, k: real)
    requires k > 0.0
    ensures Times(x, k) > 0.0 <==> x > 0.0
    ensures Times(x, k) >= 0.0 <==> x >= 0.0
  {
  }

  lemma {:induction false} Distribute(x: real, y: real, k: real)
    ensures Times(x + y, k) == Times(x, k) + Times(y, k)
    ensures Times(x - y, k) == Times(x, k) - Times(y, k)
  {
  }

  lemma {:induction false} SameFactor(x: real, y: real, k: real)
    requires Times(x, k) == Times(y, k) && k > 0.0
    ensures x == y
  {
    Distribute(x, y, k);
    assert (x - y) * k == 0.0;
  }

  lemma {:induction false} ProductAsReal(a: int, b: int)
    ensures (a * b) as real == Times(a as real, b as real)
  {
  }

  // ---------------------------------------------------------------- the definitions as products

  lemma {:induction false} PowerIsTenTo(k: nat)
    ensures Pow10(k) as real == TenTo(k)
  {
    if k > 0 {
      PowerIsTenTo(k - 1);
      assert (10 * Pow10(k - 1)) as real == 10.0 * (Pow10(k - 1) as real);
    }
  }

  lemma {:induction false} ScaleIsMajorUnit(c: Currency)
    ensures MinorUnitScale(c) as real == OneMajorUnit(c)
  {
    assert Pow10(1) == 10 && Pow10(2) == 100;
  }

  lemma {:induction false} Quotient(a: real, b: real)
    requires b > 0.0
    ensures Times(a / b, b) == a
  {
  }

  lemma {:induction false} ValueTimesPower(d: Decimal)
    ensures Times(RateValue(d), Pow10(d.places) as real) == d.units as real
  {
    PowerIsTenTo(d.places);
    hide Pow10, TenTo, Times;
    Quotient(d.units as real, TenTo(d.places));
  }

  lemma {:induction false} MajorTimesUnit(amount: int, c: Currency)
    ensures Times(Major(amount, c), OneMajorUnit(c)) == amount as real
  {
    hide Times;
    Quotient(amount as real, OneMajorUnit(c));
  }

  // ---------------------------------------------------------------- conversion

  /** The credited amount in target money, valued at the source rate, and the paid amount in source money,
      valued at the target rate, are the same up to half a minor unit of the target; a tie credits more. */
  ghost predicate IsWorth(credited: int, to: Currency, amount: int, from: Currency, fromRate: Rate, toRate: Rate) {
    var difference := Major(credited, to) * RateValue(fromRate) - Major(amount, from) * RateValue(toRate);
    var half := 0.5 / OneMajorUnit(to) * RateValue(fromRate);
    -half < difference <= half
  }

  /** Multiplying a side by both powers of ten and both scales. */
  lemma {:induction false} Expanded(x: real, rate: real, P: real, Q: real, U: real, V: real, q: real, units: real)
    requires Times(x, U) == q && Times(rate, Q) == units
    ensures Times(Times(x, rate), Times(Times(P, Q), Times(U, V))) == Times(Times(q, units), Times(P, V))
  {
    hide Times;
    Commute(P, Q);
    Exchange(Q, P, U, V);
    Commute(Q, U);
    Associate(Times(x, rate), Times(U, Q), Times(P, V));
    Exchange(x, rate, U, Q);
  }

  lemma {:induction false} SameCommon(P: real, Q: real, U: real, V: real)
    ensures Times(Times(Q, P), Times(V, U)) == Times(Times(P, Q), Times(U, V))
  {
    hide Times;
    Commute(P, Q);
    Commute(U, V);
  }

  lemma {:induction false} HalfOfUnits(fu: real, w: real)
    ensures Times(Times(0.5, fu), w) == 0.5 * Times(Times(1.0, fu), w)
  {
    assert (0.5 * fu) * w == 0.5 * (fu * w);
  }

  /** `x` and `y` in major units, `h` half a target unit; the rates times their powers of ten are whole. */
  lemma {:induction false} SidesCompared(x: real, y: real, h: real, f: real, t: real, P: real, Q: real, U: real, V: real,
                                         q: real, a: real, fu: real, tu: real, qd: real, an: real, d: real)
    requires P > 0.0 && Q > 0.0 && U > 0.0 && V > 0.0
    requires Times(x, U) == q && Times(y, V) == a && Times(h, U) == 0.5 && Times(f, Q) == fu && Times(t, P) == tu
    requires qd == Times(Times(q, fu), Times(P, V)) && an == Times(Times(a, tu), Times(Q, U)) && d == Times(Times(1.0, fu), Times(P, V))
    requires -d < 2.0 * (qd - an) <= d
    ensures -Times(h, f) < Times(x, f) - Times(y, t) <= Times(h, f)
  {
    hide Times;
    var K := Times(Times(P, Q), Times(U, V));
    Expanded(x, f, P, Q, U, V, q, fu);
    Expanded(h, f, P, Q, U, V, 0.5, fu);
    Expanded(y, t, Q, P, V, U, a, tu);
    SameCommon(P, Q, U, V);
    HalfOfUnits(fu, Times(P, V));
    PositiveTimes(P, Q);
    PositiveTimes(U, V);
    PositiveTimes(Times(P, Q), Times(U, V));
    Between(Times(x, f), Times(y, t), Times(h, f), K, qd, an, d);
  }

  lemma {:induction false} Between(x: real, y: real, half: real, K: real, a: real, b: real, d: real)
    requires K > 0.0 && Times(x, K) == a && Times(y, K) == b && Times(half, K) == 0.5 * d
    requires -d < 2.0 * (a - b) <= d
    ensures -half < x - y <= half
  {
    hide Times;
    KeepsSign(x - y + half, K);
    KeepsSign(half - (x - y), K);
    Distribute(x, y, K);
    Distribute(x - y, half, K);
    Distribute(half, x - y, K);
  }

  /** A whole product of the conversion, as a real number. */
  lemma {:induction false} FractionAsReal(q: int, units: nat, places: nat, c: Currency)
    ensures (q * (units * Pow10(places) * MinorUnitScale(c))) as real
         == Times(Times(q as real, units as real), Times(Pow10(places) as real, OneMajorUnit(c)))
  {
    ScaleIsMajorUnit(c);
    hide Pow10, MinorUnitScale, OneMajorUnit, Times;
    var P, m := Pow10(places), MinorUnitScale(c);
    Regrouped(q, units, P, m);
    ProductAsReal(q, units);
    ProductAsReal(P, m);
    ProductAsReal(q * units, P * m);
  }

  lemma {:induction false} Regrouped(a: int, b: int, c: int, d: int)
    ensures a * (b * c * d) == (a * b) * (c * d)
  {
    var x := c * d;
    assert b * c * d == b * x;
    assert a * (b * x) == (a * b) * x;
  }

  lemma {:induction false} CreditedFraction(q: int, from: Currency, to: Currency, fromRate: Rate, toRate: Rate)
    ensures (q * RatioDenominator(from, to, fromRate, toRate)) as real
         == Times(Times(q as real, fromRate.units as real), Times(Pow10(toRate.places) as real, OneMajorUnit(from)))
  {
    FractionAsReal(q, fromRate.units, toRate.places, from);
    hide Pow10, MinorUnitScale, OneMajorUnit, Times;
    assert Pow10(toRate.places) * fromRate.units == fromRate.units * Pow10(toRate.places);
  }

  lemma {:induction false} PaidFraction(amount: int, from: Currency, to: Currency, fromRate: Rate, toRate: Rate)
    ensures (amount * RatioNumerator(from, to, fromRate, toRate)) as real
         == Times(Times(amount as real, toRate.units as real), Times(Pow10(fromRate.places) as real, OneMajorUnit(to)))
  {
    FractionAsReal(amount, toRate.units, fromRate.places, to);
    hide Pow10, MinorUnitScale, OneMajorUnit, Times;
  }

  lemma {:induction false} NearestAsReals(q: int, n: int, d: int)
    requires IsNearest(q, n, d)
    ensures -((1 * d) as real) < 2.0 * ((q * d) as real - n as real) <= (1 * d) as real
  {
    var qd := q * d;
    assert -d < 2 * (qd - n) <= d;
  }

  lemma {:induction false} FractionsAreWorth(q: int, to: Currency, amount: int, from: Currency, fromRate: Rate, toRate: Rate)
    requires IsNearest(q, amount * RatioNumerator(from, to, fromRate, toRate), RatioDenominator(from, to, fromRate, toRate))
    ensures IsWorth(q, to, amount, from, fromRate, toRate)
  {
    var P, Q, U, V := Pow10(toRate.places) as real, Pow10(fromRate.places) as real, OneMajorUnit(to), OneMajorUnit(from);
    hide RatioNumerator, RatioDenominator, Pow10, MinorUnitScale, OneMajorUnit, Major, RateValue, Times, IsNearest, IsWorth;
    var n, d := RatioNumerator(from, to, fromRate, toRate), RatioDenominator(from, to, fromRate, toRate);
    var h := 0.5 / U;
    NearestAsReals(q, amount * n, d);
    CreditedFraction(q, from, to, fromRate, toRate);
    CreditedFraction(1, from, to, fromRate, toRate);
    PaidFraction(amount, from, to, fromRate, toRate);
    ValueTimesPower(fromRate);
    ValueTimesPower(toRate);
    MajorTimesUnit(q, to);
    MajorTimesUnit(amount, from);
    Quotient(0.5, U);
    SidesCompared(Major(q, to), Major(amount, from), h, RateValue(fromRate), RateValue(toRate), P, Q, U, V, q as real, amount as real,
                  fromRate.units as real, toRate.units as real, (q * d) as real, (amount * n) as real, (1 * d) as real);
    WorthIs(q, to, amount, from, fromRate, toRate);
  }

  lemma {:induction false} WorthIs(q: int, to: Currency, amount: int, from: Currency, fromRate: Rate, toRate: Rate)
    requires var half := Times(0.5 / OneMajorUnit(to), RateValue(fromRate));
             -half < Times(Major(q, to), RateValue(fromRate)) - Times(Major(amount, from), RateValue(toRate)) <= half
    ensures IsWorth(q, to, amount, from, fromRate, toRate)
  {
    hide Major, RateValue, OneMajorUnit;
  }

  lemma {:induction false} ConversionIsWorth(amount: int, from: Currency, to: Currency, fromRate: Rate, toRate: Rate)
    requires amount >= 0 && from != to
    requires Converted(amount, from, to, fromRate, toRate).Some?
    ensures Converted(amount, from, to, fromRate, toRate).value >= 0
    ensures IsWorth(Converted(amount, from, to, fromRate, toRate).value, to, amount, from, fromRate, toRate)
  {
    hide Converted, IsWorth, IsNearest, RatioNumerator, RatioDenominator;
    var credited := Converted(amount, from, to, fromRate, toRate).value;
    ConversionIsNearest(amount, from, to, fromRate, toRate);
    FractionsAreWorth(credited, to, amount, from, fromRate, toRate);
  }

  // ---------------------------------------------------------------- the printed quote

  lemma {:induction false} TrimmedValue(d: Decimal)
    ensures RateValue(Trim(d)) == RateValue(d)
  {
    hide Pow10, RateValue, Trim, Times;
    TrimKeepsValue(d);
    var t, k := Trim(d), d.places - Trim(d).places;
    ValueTimesPower(d);
    ValueTimesPower(t);
    PowersMultiply(t.places, k);
    ProductAsReal(t.units, Pow10(k));
    ProductAsReal(Pow10(t.places), Pow10(k));
    SameQuotient(RateValue(d), RateValue(t), Pow10(t.places) as real, Pow10(k) as real, t.units as real, d.units as real);
  }

  lemma {:induction false} SameQuotient(x: real, y: real, P: real, Q: real, short: real, long: real)
    requires P > 0.0 && Q > 0.0
    requires Times(x, Times(P, Q)) == long && Times(y, P) == short && long == Times(short, Q)
    ensures x == y
  {
    hide Times;
    Associate(y, P, Q);
    PositiveTimes(P, Q);
    SameFactor(x, y, Times(P, Q));
  }

  lemma {:induction false} PositiveRate(rate: Rate)
    ensures RateValue(rate) > 0.0
  {
    hide TenTo;
  }

  lemma {:induction false} CrossRate(fromRate: Rate, toRate: Rate)
    requires RateValue(fromRate) > 0.0
    ensures Times(RateValue(toRate) / RateValue(fromRate), QuoteDenominator(fromRate, toRate) as real) == QuoteNumerator(fromRate, toRate) as real
  {
    hide Pow10, RateValue, Times;
    ValueTimesPower(fromRate);
    ValueTimesPower(toRate);
    ProductAsReal(Pow10(toRate.places), fromRate.units);
    ProductAsReal(toRate.units, Pow10(fromRate.places));
    Quotient(RateValue(toRate), RateValue(fromRate));
    Crossed(RateValue(toRate) / RateValue(fromRate), RateValue(fromRate), RateValue(toRate),
            Pow10(toRate.places) as real, Pow10(fromRate.places) as real, fromRate.units as real, toRate.units as real);
  }

  lemma {:induction false} Crossed(cross: real, f: real, t: real, P: real, Q: real, fu: real, tu: real)
    requires Times(cross, f) == t && Times(f, Q) == fu && Times(t, P) == tu
    ensures Times(cross, Times(P, fu)) == Times(tu, Q)
  {
    hide Times;
    Commute(P, fu);
    Associate(f, Q, P);
    Commute(Q, P);
    Associate(cross, f, Times(P, Q));
    Associate(t, P, Q);
  }

  /** The printed quote is target money for one unit of source money, exact to half a unit of its eighteenth
      decimal place; a tie is rounded up. */
  lemma {:induction false} QuoteIsCrossRate(fromRate: Rate, toRate: Rate)
    ensures RateValue(fromRate) > 0.0
    ensures var quote, cross := RateValue(QuoteCrossRate(fromRate, toRate)), RateValue(toRate) / RateValue(fromRate);
            -0.5 / TenTo(18) < quote - cross <= 0.5 / TenTo(18)
  {
    hide Pow10, RateValue, QuoteNumerator, QuoteDenominator, Trim, TenTo, Times, RoundMagnitude, IsRounded;
    var scaled := ScaledQuote(fromRate, toRate);
    var N, D := QuoteNumerator(fromRate, toRate), QuoteDenominator(fromRate, toRate);
    TrimmedValue(Decimal(scaled, 18));
    ValueTimesPower(Decimal(scaled, 18));
    PowerIsTenTo(18);
    RoundMagnitudeIsRounded(N * Pow10(18), D, HalfAwayFromZero);
    PositiveRate(fromRate);
    CrossRate(fromRate, toRate);
    var quote, cross := RateValue(QuoteCrossRate(fromRate, toRate)), RateValue(toRate) / RateValue(fromRate);
    ProductAsReal(N, Pow10(18));
    ScaledCross(cross, D as real, N as real, TenTo(18));
    RoundedQuote(scaled, N * Pow10(18), D, quote, cross, TenTo(18));
  }

  lemma {:induction false} ScaledCross(cross: real, d: real, n: real, scale: real)
    requires Times(cross, d) == n
    ensures Times(Times(cross, scale), d) == Times(n, scale)
  {
    hide Times;
    Associate(cross, scale, d);
    Commute(scale, d);
    Associate(cross, d, scale);
  }

  lemma {:induction false} RoundedQuote(q: int, n: nat, d: nat, quote: real, cross: real, scale: real)
    requires d > 0 && scale > 0.0 && IsRounded(q, n, d, HalfAwayFromZero)
    requires Times(quote, scale) == q as real && Times(Times(cross, scale), d as real) == n as real
    ensures -0.5 / scale < quote - cross <= 0.5 / scale
  {
    RoundedIsBetween(q, n, d);
    ProductAsReal(q, d);
    hide Times, IsRounded;
    HalfTimes(d as real);
    Between(Times(quote, scale), Times(cross, scale), 0.5, d as real, (q * d) as real, n as real, d as real);
    Distribute(quote, cross, scale);
    Quotient(0.5, scale);
    Within(quote - cross, 0.5 / scale, scale);
  }

  lemma {:induction false} Within(x: real, half: real, k: real)
    requires k > 0.0 && -Times(half, k) < Times(x, k) <= Times(half, k)
    ensures -half < x <= half
  {
    KeepsSign(x + half, k);
    KeepsSign(half - x, k);
    Distribute(x, half, k);
    Distribute(half, x, k);
  }

  lemma {:induction false} HalfTimes(d: real)
    ensures Times(0.5, d) == 0.5 * d
  {
  }

  lemma {:induction false} RoundedIsBetween(q: int, n: nat, d: nat)
    requires IsRounded(q, n, d, HalfAwayFromZero)
    ensures -(d as real) < 2.0 * ((q * d) as real - n as real) <= d as real
  {
    assert (2 * q - 1) * d == 2 * (q * d) - d && (2 * q + 1) * d == 2 * (q * d) + d;
    var qd := q * d;
    assert 2 * qd - d <= 2 * n < 2 * qd + d;
  }

  // ---------------------------------------------------------------- the per-command limit

  /** The limit of a command is a hundred thousand dollars' worth. */
  lemma {:induction false} LimitIsHundredThousandDollars(amount: nat, c: Currency, rate: Rate)
    ensures WithinCommandUsdLimit(amount, c, rate) <==> Major(amount, c) <= 100_000.0 * RateValue(rate)
  {
    hide Pow10, MinorUnitScale, Major, RateValue, OneMajorUnit, WithinCommandUsdLimit, Times;
    var P, m := Pow10(rate.places), MinorUnitScale(c);
    ValueTimesPower(rate);
    MajorTimesUnit(amount, c);
    ScaleIsMajorUnit(c);
    LimitAsProduct(amount, c, rate);
    ProductAsReal(amount, P);
    ProductAsReal(m, rate.units);
    LimitCompared(Major(amount, c), RateValue(rate), m as real, P as real, amount as real, rate.units as real);
  }

  lemma {:induction false} LimitCompared(x: real, y: real, m: real, P: real, amount: real, units: real)
    requires m > 0.0 && P > 0.0 && Times(x, m) == amount && Times(y, P) == units
    ensures Times(amount, P) <= 100_000.0 * Times(m, units) <==> x <= 100_000.0 * y
  {
    hide Times;
    PositiveTimes(m, P);
    Associate(x, m, P);
    Commute(y, P);
    Associate(m, P, y);
    Commute(Times(m, P), y);
    KeepsSign(100_000.0 * y - x, Times(m, P));
    ScaledDifference(x, y, Times(m, P));
  }

  lemma {:induction false} ScaledDifference(x: real, y: real, k: real)
    ensures Times(100_000.0 * y - x, k) == 100_000.0 * Times(y, k) - Times(x, k)
  {
  }

  lemma {:induction false} LimitAsProduct(amount: nat, c: Currency, rate: Rate)
    ensures WithinCommandUsdLimit(amount, c, rate)
            <==> amount * Pow10(rate.places) <= 100_000 * (MinorUnitScale(c) * rate.units)
  {
    assert MinorUnitScale(USD) == 100 by { Pow10Values(); }
    var P, m := Pow10(rate.places), MinorUnitScale(c);
    hide Pow10, MinorUnitScale;
    assert amount * 100 * P == 100 * (amount * P);
    assert MAX_COMMAND_USD_MINOR * m * rate.units == 100 * (100_000 * (m * rate.units));
  }

  // ---------------------------------------------------------------- safe integers and quotes in writing

  function TwoTo(n: nat): nat {
    if n == 0 then 1 else 2 * TwoTo(n - 1)
  }

  lemma {:induction false} SafeIntegers()
    ensures MAX_SAFE == TwoTo(53) - 1
  {
    assert TwoTo(10) == 1_024;
    assert TwoTo(20) == 1_048_576;
    assert TwoTo(30) == 1_073_741_824;
    assert TwoTo(40) == 1_099_511_627_776;
    assert TwoTo(50) == 1_125_899_906_842_624;
  }

  /** A rate in writing: positive, with at most 64 characters, of which one is the point if there are decimal
      places and at least one digit stands before it. */
  lemma {:induction false} RateInWriting(d: Decimal, digits: nat)
    requires d.units < TenToInt(digits) && (digits > 1 ==> d.units >= TenToInt(digits - 1)) && digits >= 1
    ensures IsPositiveDecimal(d)
            <==> && d.units > 0
                 && if d.places == 0 then digits <= 64
                    else digits + 1 <= 64 && d.places + 2 <= 64
  {
    PowerIsTenToInt(digits);
    PowerIsTenToInt(digits - 1);
    DigitCountBound(d.units, digits);
    if digits > 1 {
      DigitCountBound(d.units, digits - 1);
    }
    assert DigitCount(d.units) == digits;
    hide DigitCount, TenToInt, Pow10;
  }

  function TenToInt(k: nat): nat {
    if k == 0 then 1 else 10 * TenToInt(k - 1)
  }

  lemma {:induction false} PowerIsTenToInt(k: nat)
    ensures Pow10(k) == TenToInt(k)
  {
    if k > 0 {
      PowerIsTenToInt(k - 1);
    }
  }
}
