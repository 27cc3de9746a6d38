/** Printing and parsing amounts: `src/domain/money.ts`. */
module Money {
  import opened Arithmetic
  import opened Wrappers
  import opened Currency

  // ---------------------------------------------------------------- digit strings

  predicate IsDigit(c: char) { '0' <= c <= '9' }

  predicate AllDigits(s: string) {
    forall i :: 0 <= i < |s| ==> IsDigit(s[i])
  }

  function Digit(n: nat): char
    requires n < 10
  {
    '0' + n as char
  }

  function Show(n: nat): (s: string)
    ensures |s| > 0 && AllDigits(s)
  {
    if n < 10 then [Digit(n)] else Show(n / 10) + [Digit(n % 10)]
  }

  function Value(s: string): nat
    requires AllDigits(s)
  {
    if s == "" then 0 else 10 * Value(s[..|s| - 1]) + (s[|s| - 1] - '0') as nat
  }

  lemma {:induction false} ValueOfShow(n: nat)
    ensures Value(Show(n)) == n
  {
    if n >= 10 {
      ValueOfShow(n / 10);
      assert Show(n)[..|Show(n)| - 1] == Show(n / 10);
    }
  }

  lemma {:induction false} ShowIsInjective(m: nat, n: nat)
    requires Show(m) == Show(n)
    ensures m == n
  {
    ValueOfShow(m);
    ValueOfShow(n);
  }

  /** `padStart(width, '0')`. */
  function PadStart(s: string, width: nat): string
    decreases width - |s|
  {
    if |s| >= width then s else PadStart("0" + s, width)
  }

  /** `padEnd(width, '0')`. */
  function PadEnd(s: string, width: nat): string
    decreases width - |s|
  {
    if |s| >= width then s else PadEnd(s + "0", width)
  }

  lemma {:induction false} PadStartKeepsValue(s: string, width: nat)
    requires AllDigits(s)
    ensures AllDigits(PadStart(s, width)) && Value(PadStart(s, width)) == Value(s)
    ensures |PadStart(s, width)| == if |s| >= width then |s| else width
    decreases width - |s|
  {
    if |s| < width {
      ValueOfConcat("0", s);
      PadStartKeepsValue("0" + s, width);
    }
  }

  lemma {:induction false} PadEndKeepsDigits(s: string, width: nat)
    requires AllDigits(s)
    ensures AllDigits(PadEnd(s, width))
    decreases width - |s|
  {
    if |s| < width {
      PadEndKeepsDigits(s + "0", width);
    }
  }

  lemma {:induction false} ValueOfConcat(a: string, b: string)
    requires AllDigits(a) && AllDigits(b)
    ensures Value(a + b) == Value(a) * Pow10(|b|) + Value(b)
    decreases |b|
  {
    if b == "" {
      assert a + b == a;
    } else {
      ValueOfConcat(a, b[..|b| - 1]);
      assert (a + b)[..|a + b| - 1] == a + b[..|b| - 1];
      TenTimes(Value(a), Pow10(|b| - 1));
    }
  }

  lemma {:induction false} TenTimes(v: nat, p: nat)
    ensures v * (10 * p) == 10 * (v * p)
  {
  }

  lemma {:induction false} ShortDigits(n: nat, k: nat)
    requires 1 <= k && n < Pow10(k)
    ensures |Show(n)| <= k
    decreases k
  {
    if n >= 10 {
      assert k > 1 by { assert Pow10(1) == 10 * Pow10(0); }
      ShortDigits(n / 10, k - 1);
    }
  }

  // ---------------------------------------------------------------- printing

  datatype Locale = Ru | En

  const NARROW_NO_BREAK_SPACE := '\U{202F}'

  function GroupSeparator(locale: Locale): char {
    if locale.Ru? then NARROW_NO_BREAK_SPACE else ','
  }

  function DecimalSeparator(locale: Locale): char {
    if locale.Ru? then ',' else '.'
  }

  /** A separator before every group of three digits, counted from the right. */
  function Grouped(digits: string, separator: char): string {
    if |digits| <= 3 then digits
    else Grouped(digits[..|digits| - 3], separator) + [separator] + digits[|digits| - 3..]
  }

  function HiddenScale(c: Currency): (scale: nat)
    ensures scale == if c.IDR? then 100 else 1
  {
    Pow10Values();
    Pow10(MinorUnits(c) - DisplayDigits(c))
  }

  /** The amount in visible units: hidden digits are dropped, or rounded up for a shortfall. */
  function DisplayValue(minor: nat, c: Currency, roundHiddenUp: bool): nat {
    if roundHiddenUp then (minor + HiddenScale(c) - 1) / HiddenScale(c) else minor / HiddenScale(c)
  }

  datatype MoneyParts = MoneyParts(negative: bool, whole: string, fraction: string)

  function PartsOf(minor: int, c: Currency, locale: Locale, roundHiddenUp: bool): MoneyParts {
    var shown := DisplayValue(if minor < 0 then -minor else minor, c, roundHiddenUp);
    var scale := Pow10(DisplayDigits(c));
    MoneyParts(minor < 0,
               Grouped(Show(Quotient(shown, scale)), GroupSeparator(locale)),
               if DisplayDigits(c) == 0 then "" else PadStart(Show(shown % scale), DisplayDigits(c)))
  }

  /** The number in a printed amount, without its sign and currency symbol. */
  function Number(parts: MoneyParts, locale: Locale): string {
    if parts.fraction == "" then parts.whole
    else parts.whole + [DecimalSeparator(locale)] + parts.fraction
  }

  // ---------------------------------------------------------------- parsing

  predicate IsSpace(c: char) {
    || c == ' ' || c == '\t' || c == '\n' || c == '\U{000B}' || c == '\U{000C}' || c == '\r'
    || c == '\U{00A0}' || c == '\U{1680}' || c == '\U{2028}' || c == '\U{2029}' || c == '\U{202F}'
    || c == '\U{205F}' || c == '\U{3000}' || c == '\U{FEFF}'
    || '\U{2000}' <= c <= '\U{200A}'
  }

  predicate IsComma(c: char) { c == ',' }

  function Without(s: string, drop: char -> bool): string {
    if s == "" then "" else (if drop(s[0]) then "" else [s[0]]) + Without(s[1..], drop)
  }

  /** The position of the first `c` in `s`, or the length of `s`. */
  function IndexOf(s: string, c: char): (i: nat)
    ensures i <= |s|
  {
    if s == "" || s[0] == c then 0 else 1 + IndexOf(s[1..], c)
  }

  /** The optional fraction part of the patterns: a point and one to `displayDigits` digits. */
  predicate IsFractionPart(s: string, displayDigits: nat) {
    s == "" || (|s| >= 2 && s[0] == '.' && AllDigits(s[1..]) && |s| - 1 <= displayDigits)
  }

  /** `\d{1,3}(,\d{3})*` */
  predicate IsGrouped(s: string) {
    if |s| <= 3 then |s| >= 1 && AllDigits(s)
    else AllDigits(s[|s| - 3..]) && s[|s| - 4] == ',' && IsGrouped(s[..|s| - 4])
  }

  function CommaToPoint(s: string): string {
    var i := IndexOf(s, ',');
    if i < |s| then s[i := '.'] else s
  }

  function NormalizeDecimalInput(raw: string, displayDigits: nat, locale: Locale): Option<string> {
    var compact := Without(raw, IsSpace);
    if locale.Ru? then Some(CommaToPoint(compact))
    else
      var i := IndexOf(compact, '.');
      var whole, fraction := compact[..i], compact[i..];
      if IsFractionPart(fraction, displayDigits) && (IsGrouped(whole) || (whole != "" && AllDigits(whole)))
      then Some(Without(compact, IsComma))
      else None
  }

  /** `^(\d+)(\.(\d{1,D}))?$` and the amount it denotes; `None` for anything else, for an amount that is
      not a safe integer, and for zero where zero is not allowed. */
  function ParseDecimalToMinor(raw: string, c: Currency, allowZero: bool, locale: Locale): Option<nat> {
    match NormalizeDecimalInput(raw, DisplayDigits(c), locale)
    case None => None
    case Some(cleaned) =>
      match ShownUnits(cleaned, DisplayDigits(c))
      case None => None
      case Some(shown) => Accepted(shown * HiddenScale(c), allowZero)
  }

  /** Matches the pattern and reads the digits as visible units. */
  function ShownUnits(cleaned: string, displayDigits: nat): Option<nat> {
    var i := IndexOf(cleaned, '.');
    var whole, fraction := cleaned[..i], cleaned[i..];
    if whole == "" || !AllDigits(whole) || !IsFractionPart(fraction, displayDigits) then None
    else
      var digits := if fraction == "" then "" else fraction[1..];
      PadEndKeepsDigits(digits, displayDigits);
      Some(Value(whole) * Pow10(displayDigits) + Value(PadEnd(digits, displayDigits)))
  }

  function Accepted(minor: nat, allowZero: bool): Option<nat> {
    if (!allowZero && minor == 0) || minor > MAX_SAFE then None else Some(minor)
  }

  function ParseAmountInput(raw: string, c: Currency, locale: Locale): (r: Option<nat>)
    ensures r.Some? ==> 0 < r.value <= MAX_SAFE
  {
    ParseDecimalToMinor(raw, c, false, locale)
  }

  function ParseBalanceInput(raw: string, c: Currency, locale: Locale): (r: Option<nat>)
    ensures r.Some? ==> r.value <= MAX_SAFE
  {
    ParseDecimalToMinor(raw, c, true, locale)
  }

  // ---------------------------------------------------------------- printing and parsing are inverse

  lemma {:induction false} WithoutConcat(a: string, b: string, drop: char -> bool)
    ensures Without(a + b, drop) == Without(a, drop) + Without(b, drop)
  {
    if a == "" {
      assert a + b == b;
    } else {
      WithoutConcat(a[1..], b, drop);
      assert (a + b)[1..] == a[1..] + b;
    }
  }

  lemma {:induction false} WithoutNothing(s: string, drop: char -> bool)
    requires forall i :: 0 <= i < |s| ==> !drop(s[i])
    ensures Without(s, drop) == s
  {
    if s != "" {
      WithoutNothing(s[1..], drop);
    }
  }

  lemma {:induction false} WithoutSeparator(a: string, separator: char, b: string, drop: char -> bool)
    requires drop(separator)
    ensures Without(a + [separator] + b, drop) == Without(a, drop) + Without(b, drop)
  {
    WithoutConcat(a + [separator], b, drop);
    WithoutConcat(a, [separator], drop);
    assert Without([separator], drop) == "";
  }

  ghost predicate KeepsDigits(drop: char -> bool) {
    forall c :: IsDigit(c) ==> !drop(c)
  }

  lemma {:induction false} DigitsRemain(s: string, drop: char -> bool)
    requires AllDigits(s) && KeepsDigits(drop)
    ensures Without(s, drop) == s
  {
    WithoutNothing(s, drop);
  }

  /** Dropping the separators of a grouped number gives the plain digits back. */
  lemma {:induction false} UngroupGrouped(digits: string, separator: char, drop: char -> bool)
    requires AllDigits(digits) && drop(separator) && KeepsDigits(drop)
    ensures Without(Grouped(digits, separator), drop) == digits
  {
    hide Without, KeepsDigits;
    if |digits| <= 3 {
      DigitsRemain(digits, drop);
    } else {
      var front, back := digits[..|digits| - 3], digits[|digits| - 3..];
      UngroupGrouped(front, separator, drop);
      DigitsRemain(back, drop);
      WithoutSeparator(Grouped(front, separator), separator, back, drop);
      assert digits == front + back;
    }
  }

  lemma {:induction false} GroupedIsGrouped(digits: string)
    requires AllDigits(digits) && |digits| >= 1
    ensures IsGrouped(Grouped(digits, ','))
    ensures '.' !in Grouped(digits, ',')
    ensures forall i :: 0 <= i < |Grouped(digits, ',')| ==> !IsSpace(Grouped(digits, ',')[i])
  {
    if |digits| > 3 {
      var front, back := digits[..|digits| - 3], digits[|digits| - 3..];
      GroupedIsGrouped(front);
      var g := Grouped(digits, ',');
      assert g == Grouped(front, ',') + [','] + back;
      assert g[..|g| - 4] == Grouped(front, ',');
      assert g[|g| - 3..] == back;
    }
  }

  lemma {:induction false} SplitAtFirst(a: string, c: char, b: string)
    requires c !in a
    ensures IndexOf(a + [c] + b, c) == |a|
  {
    var s := a + [c] + b;
    if a != "" {
      SplitAtFirst(a[1..], c, b);
      assert s[1..] == a[1..] + [c] + b;
      assert s[0] == a[0];
    }
  }

  lemma {:induction false} NoOccurrence(a: string, c: char)
    requires c !in a
    ensures IndexOf(a, c) == |a|
  {
    if a != "" {
      NoOccurrence(a[1..], c);
    }
  }

  /** The fraction as the patterns expect it, with its point. */
  function FractionPart(fraction: string): string {
    if fraction == "" then "" else ['.'] + fraction
  }

  function RawNumber(whole: string, fraction: string, locale: Locale): string {
    Number(MoneyParts(false, Grouped(whole, GroupSeparator(locale)), fraction), locale)
  }

  lemma {:induction false} NormalizedRu(whole: string, fraction: string, displayDigits: nat)
    requires AllDigits(whole) && AllDigits(fraction)
    ensures NormalizeDecimalInput(RawNumber(whole, fraction, Ru), displayDigits, Ru)
            == Some(whole + FractionPart(fraction))
  {
    var grouped := Grouped(whole, NARROW_NO_BREAK_SPACE);
    var tail := if fraction == "" then "" else [','] + fraction;
    assert RawNumber(whole, fraction, Ru) == grouped + tail;
    UngroupGrouped(whole, NARROW_NO_BREAK_SPACE, IsSpace);
    WithoutConcat(grouped, tail, IsSpace);
    WithoutNothing(tail, IsSpace);
    FirstComma(whole, fraction, tail);
  }

  lemma {:induction false} FirstComma(whole: string, fraction: string, tail: string)
    requires AllDigits(whole)
    requires tail == if fraction == "" then "" else [','] + fraction
    ensures CommaToPoint(whole + tail) == whole + FractionPart(fraction)
  {
    hide IndexOf;
    if fraction == "" {
      NoOccurrence(whole, ',');
      assert whole + tail == whole;
    } else {
      SplitAtFirst(whole, ',', fraction);
      assert whole + [','] + fraction == whole + tail;
      assert (whole + tail)[|whole| := '.'] == whole + FractionPart(fraction);
    }
  }

  lemma {:induction false} NormalizedEn(whole: string, fraction: string, displayDigits: nat)
    requires AllDigits(whole) && |whole| >= 1
    requires AllDigits(fraction) && |fraction| <= displayDigits
    ensures NormalizeDecimalInput(RawNumber(whole, fraction, En), displayDigits, En)
            == Some(whole + FractionPart(fraction))
  {
    hide Without, IndexOf, IsFractionPart, IsGrouped, Grouped, AllDigits, IsSpace;
    var grouped, tail := Grouped(whole, ','), FractionPart(fraction);
    var raw := RawNumber(whole, fraction, En);
    assert raw == grouped + tail;
    GroupedIsGrouped(whole);
    NoSpaceInNumber(grouped, fraction);
    FractionMatches(fraction, displayDigits);
    PointPosition(grouped, fraction);
    assert raw[..|grouped|] == grouped && raw[|grouped|..] == tail;
    CommasRemoved(whole, fraction);
  }

  lemma {:induction false} NoSpaceInNumber(grouped: string, fraction: string)
    requires forall i :: 0 <= i < |grouped| ==> !IsSpace(grouped[i])
    requires AllDigits(fraction)
    ensures Without(grouped + FractionPart(fraction), IsSpace) == grouped + FractionPart(fraction)
  {
    hide Without;
    var tail := FractionPart(fraction);
    WithoutNothing(grouped, IsSpace);
    forall i | 0 <= i < |tail|
      ensures !IsSpace(tail[i])
    {
      assert tail[i] == '.' || tail[i] == fraction[i - 1];
    }
    WithoutNothing(tail, IsSpace);
    WithoutConcat(grouped, tail, IsSpace);
  }

  lemma {:induction false} FractionMatches(fraction: string, displayDigits: nat)
    requires AllDigits(fraction) && |fraction| <= displayDigits
    ensures IsFractionPart(FractionPart(fraction), displayDigits)
  {
    assert fraction != "" ==> FractionPart(fraction)[1..] == fraction;
  }

  lemma {:induction false} CommasRemoved(whole: string, fraction: string)
    requires AllDigits(whole) && AllDigits(fraction)
    ensures Without(Grouped(whole, ',') + FractionPart(fraction), IsComma) == whole + FractionPart(fraction)
  {
    UngroupGrouped(whole, ',', IsComma);
    WithoutConcat(Grouped(whole, ','), FractionPart(fraction), IsComma);
    WithoutNothing(FractionPart(fraction), IsComma);
  }

  lemma {:induction false} PointPosition(whole: string, fraction: string)
    requires '.' !in whole
    ensures IndexOf(whole + FractionPart(fraction), '.') == |whole|
  {
    hide IndexOf;
    if fraction == "" {
      NoOccurrence(whole, '.');
      assert whole + FractionPart(fraction) == whole;
    } else {
      SplitAtFirst(whole, '.', fraction);
      assert whole + ['.'] + fraction == whole + FractionPart(fraction);
    }
  }

  lemma {:induction false} ShownUnitsOfParts(whole: string, fraction: string, displayDigits: nat)
    requires AllDigits(whole) && |whole| >= 1
    requires AllDigits(fraction) && |fraction| == displayDigits
    ensures ShownUnits(whole + FractionPart(fraction), displayDigits)
            == Some(Value(whole) * Pow10(displayDigits) + Value(fraction))
  {
    hide Value, Pow10, PadEnd, IndexOf, AllDigits, IsFractionPart;
    var cleaned := whole + FractionPart(fraction);
    NoPointInDigits(whole);
    PointPosition(whole, fraction);
    FractionMatches(fraction, displayDigits);
    assert cleaned[..|whole|] == whole;
    assert cleaned[|whole|..] == FractionPart(fraction);
    assert fraction != "" ==> FractionPart(fraction)[1..] == fraction;
    NothingToPad(fraction, displayDigits);
  }

  lemma {:induction false} NoPointInDigits(s: string)
    requires AllDigits(s)
    ensures '.' !in s
  {
  }

  lemma {:induction false} NothingToPad(s: string, width: nat)
    requires |s| == width
    ensures PadEnd(s, width) == s
  {
  }

  /** Parsing a printed amount gives back exactly the visible amount, in both locales. */
  lemma {:induction false} ParsePrinted(minor: nat, c: Currency, locale: Locale, roundHiddenUp: bool, allowZero: bool)
    ensures ParseDecimalToMinor(Number(PartsOf(minor, c, locale, roundHiddenUp), locale), c, allowZero, locale)
            == Accepted(DisplayValue(minor, c, roundHiddenUp) * HiddenScale(c), allowZero)
  {
    hide NormalizeDecimalInput, ShownUnits, Value, Show, Pow10, DisplayValue, HiddenScale, Accepted, Grouped;
    var shown := DisplayValue(minor, c, roundHiddenUp);
    var digits := DisplayDigits(c);
    var scale := Pow10(digits);
    var whole := Show(Quotient(shown, scale));
    var fraction := if digits == 0 then "" else PadStart(Show(shown % scale), digits);
    FractionDigits(shown % scale, digits);
    ValueOfShow(Quotient(shown, scale));
    if locale.Ru? {
      NormalizedRu(whole, fraction, digits);
    } else {
      NormalizedEn(whole, fraction, digits);
    }
    assert Number(PartsOf(minor, c, locale, roundHiddenUp), locale) == RawNumber(whole, fraction, locale);
    ShownUnitsOfParts(whole, fraction, digits);
  }

  lemma {:induction false} FractionDigits(n: nat, digits: nat)
    requires n < Pow10(digits)
    ensures var fraction := if digits == 0 then "" else PadStart(Show(n), digits);
            |fraction| == digits && AllDigits(fraction) && Value(fraction) == n
  {
    if digits > 0 {
      ShortDigits(n, digits);
      PadStartKeepsValue(Show(n), digits);
      ValueOfShow(n);
    }
  }

  /** Where no digits are hidden, printing then parsing is the identity. */
  lemma {:induction false} PrintThenParse(minor: nat, c: Currency, locale: Locale, roundHiddenUp: bool)
    requires minor <= MAX_SAFE && !c.IDR?
    ensures ParseDecimalToMinor(Number(PartsOf(minor, c, locale, roundHiddenUp), locale), c, true, locale)
            == Some(minor)
  {
    hide ParseDecimalToMinor, Number, PartsOf;
    ParsePrinted(minor, c, locale, roundHiddenUp, true);
    assert HiddenScale(c) == 1;
  }

  /** With hidden digits (Indonesian rupiah) the plain form shows the largest visible amount not above
      the input, and the shortfall form the smallest one not below it. */
  lemma {:induction false} HiddenDigitsRound(minor: nat, c: Currency, visible: nat)
    requires visible % HiddenScale(c) == 0
    ensures var down := DisplayValue(minor, c, false) * HiddenScale(c);
            down <= minor && (visible <= minor ==> visible <= down)
    ensures var up := DisplayValue(minor, c, true) * HiddenScale(c);
            minor <= up && (minor <= visible ==> up <= visible)
  {
    Pow10Values();
    assert HiddenScale(c) == if c.IDR? then 100 else 1;
  }
}
