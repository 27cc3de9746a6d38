/** What the parser of amounts reads: exactly the numbers written with the locale's separators, at their decimal
    value, short fractions included. */
module AmountProofs {
  import opened Arithmetic
  import opened Wrappers
  import opened Currency
  import opened Money

  /** ISO 4217: minor units in one major unit. */
  function OneUnit(c: Currency): nat {
    match c
    case VND => 1
    case _ => 100
  }

  /** How many decimal places an amount may be written with. */
  function MostPlaces(c: Currency): nat {
    match c
    case VND => 0
    case IDR => 0
    case _ => 2
  }

  // ---------------------------------------------------------------- groups of three digits

  lemma {:induction false} GroupedLength(digits: string, separator: char)
    requires |digits| >= 1
    ensures |Grouped(digits, separator)| == |digits| + (|digits| - 1) / 3
    decreases |digits|
  {
    if |digits| > 3 {
      GroupedLength(digits[..|digits| - 3], separator);
    }
  }

  /** Read from the right, every fourth character is a separator and the others are the digits in order. */
  lemma {:induction false} GroupsOfThree(digits: string, separator: char, k: nat)
    requires |digits| >= 1 && k < |Grouped(digits, separator)|
    ensures |digits| > k - k / 4
    ensures var g := Grouped(digits, separator);
            g[|g| - 1 - k] == if k % 4 == 3 then separator else digits[|digits| - 1 - (k - k / 4)]
    decreases |digits|
  {
    var g := Grouped(digits, separator);
    if |digits| > 3 {
      var front := digits[..|digits| - 3];
      var h := Grouped(front, separator);
      assert g == h + [separator] + digits[|digits| - 3..];
      if k >= 4 {
        GroupsOfThree(front, separator, k - 4);
        FourLess(k);
        assert g[|g| - 1 - k] == h[|h| - 1 - (k - 4)];
      }
    }
  }

  lemma {:induction false} FourLess(k: nat)
    requires k >= 4
    ensures k / 4 == (k - 4) / 4 + 1 && k % 4 == (k - 4) % 4
  {
  }

  /** A grouped whole part is the grouping of its own digits. */
  lemma {:induction false} GroupedBack(s: string)
    requires IsGrouped(s)
    ensures var digits := Without(s, IsComma);
            digits != "" && AllDigits(digits) && s == Grouped(digits, ',')
    decreases |s|
  {
    if |s| <= 3 {
      WithoutNothing(s, IsComma);
    } else {
      var front, back := s[..|s| - 4], s[|s| - 3..];
      GroupedBack(front);
      assert s == front + [','] + back;
      WithoutSeparator(front, ',', back, IsComma);
      WithoutNothing(back, IsComma);
      var digits := Without(s, IsComma);
      assert digits == Without(front, IsComma) + back;
      assert digits[..|digits| - 3] == Without(front, IsComma) && digits[|digits| - 3..] == back;
    }
  }

  // ---------------------------------------------------------------- how a number is written

  /** The fraction with its separator: a point, or in Russian a comma as well. */
  predicate IsTail(tail: string, fraction: string, locale: Locale) {
    if fraction == "" then tail == ""
    else tail == "." + fraction || (locale.Ru? && tail == "," + fraction)
  }

  /** The whole part: its digits, or in English its digits in groups of three. */
  predicate IsFront(front: string, whole: string, locale: Locale) {
    front == whole || (locale.En? && front == Grouped(whole, ','))
  }

  /** The digits that the number consists of. */
  predicate AreDigits(whole: string, fraction: string, c: Currency) {
    whole != "" && AllDigits(whole) && AllDigits(fraction) && |fraction| <= MostPlaces(c)
  }

  /** The amount in minor units is the decimal number in major units. */
  ghost predicate IsValueOf(amount: nat, whole: string, fraction: string, c: Currency)
    requires AllDigits(whole) && AllDigits(fraction)
  {
    IsDecimal(amount, Value(whole), Value(fraction), |fraction|, OneUnit(c))
  }

  /** `amount` is `w.f` times the unit, with so many decimal places. */
  ghost predicate IsDecimal(amount: nat, w: nat, f: nat, places: nat, unit: nat) {
    amount * Pow10(places) == (w * Pow10(places) + f) * unit
  }

  /** The fraction padded to all its places. */
  function Padded(w: nat, f: nat, places: nat, most: nat): nat
    requires places <= most
  {
    w * Pow10(most) + f * Pow10(most - places)
  }

  // ---------------------------------------------------------------- padding

  lemma {:induction false} PadEndValue(s: string, width: nat)
    requires AllDigits(s) && |s| <= width
    ensures AllDigits(PadEnd(s, width)) && Value(PadEnd(s, width)) == Value(s) * Pow10(width - |s|)
    decreases width - |s|
  {
    if |s| < width {
      ValueOfConcat(s, "0");
      assert Value("0") == 0 && Pow10(1) == 10 by { assert Pow10(0) == 1; }
      assert AllDigits(s + "0");
      PadEndValue(s + "0", width);
      OnePowerMore(Value(s), width - |s| - 1);
    }
  }

  lemma {:induction false} OnePowerMore(v: nat, k: nat)
    ensures (v * 10) * Pow10(k) == v * Pow10(k + 1)
  {
    assert Pow10(k + 1) == 10 * Pow10(k);
    var p := Pow10(k);
    assert (v * 10) * p == v * (10 * p);
  }

  lemma {:induction false} UnitIsPower(c: Currency)
    ensures DisplayDigits(c) == MostPlaces(c) && Pow10(MostPlaces(c)) * HiddenScale(c) == OneUnit(c)
  {
    Pow10Values();
  }

  /** The digits read with padding are the decimal number in minor units. */
  lemma {:induction false} ReadValue(w: nat, f: nat, places: nat, c: Currency)
    requires places <= MostPlaces(c)
    ensures IsDecimal(Padded(w, f, places, MostPlaces(c)) * HiddenScale(c), w, f, places, OneUnit(c))
  {
    var D := MostPlaces(c);
    UnitIsPower(c);
    PowersMultiply(D - places, places);
    ReadProduct(w, f, Pow10(D - places), Pow10(places), Pow10(D), HiddenScale(c), OneUnit(c));
  }

  lemma {:induction false} ReadProduct(w: nat, f: nat, a: nat, b: nat, d: nat, h: nat, unit: nat)
    requires d == a * b && d * h == unit
    ensures ((w * d + f * a) * h) * b == (w * b + f) * unit
  {
    var x := w * b + f;
    assert w * d + f * a == x * a by {
      assert w * (a * b) == (w * b) * a;
      assert (w * b + f) * a == (w * b) * a + f * a;
    }
    assert ((x * a) * h) * b == x * ((a * b) * h) by {
      var y := x * a;
      assert (y * h) * b == (y * b) * h;
      assert y * b == x * (a * b);
      assert (x * d) * h == x * (d * h);
    }
  }

  // ---------------------------------------------------------------- a written number is read

  lemma {:induction false} ShownOfParts(whole: string, fraction: string, c: Currency)
    requires AreDigits(whole, fraction, c)
    ensures ShownUnits(whole + FractionPart(fraction), DisplayDigits(c))
            == Some(Padded(Value(whole), Value(fraction), |fraction|, MostPlaces(c)))
  {
    hide Value, Pow10, PadEnd, IndexOf, AllDigits, IsFractionPart;
    var cleaned := whole + FractionPart(fraction);
    var D := DisplayDigits(c);
    UnitIsPower(c);
    NoPointInDigits(whole);
    PointPosition(whole, fraction);
    FractionMatches(fraction, D);
    assert cleaned[..|whole|] == whole;
    assert cleaned[|whole|..] == FractionPart(fraction);
    assert fraction != "" ==> FractionPart(fraction)[1..] == fraction;
    PadEndValue(fraction, D);
  }

  lemma {:induction false} NoComma(digits: string)
    requires AllDigits(digits)
    ensures ',' !in digits && '.' !in digits
  {
  }

  lemma {:induction false} RussianForm(whole: string, fraction: string, tail: string)
    requires AllDigits(whole) && AllDigits(fraction) && IsTail(tail, fraction, Ru)
    ensures CommaToPoint(whole + tail) == whole + FractionPart(fraction)
  {
    if tail == "," + fraction {
      FirstComma(whole, fraction, if fraction == "" then "" else [','] + fraction);
    } else {
      hide IndexOf;
      NoComma(whole);
      NoComma(fraction);
      assert ',' !in whole + tail;
      NoOccurrence(whole + tail, ',');
    }
    if fraction == "" {
      FirstComma(whole, fraction, "");
    }
  }

  lemma {:induction false} EnglishForm(front: string, whole: string, fraction: string, displayDigits: nat)
    requires AllDigits(whole) && whole != "" && AllDigits(fraction) && |fraction| <= displayDigits && IsFront(front, whole, En)
    ensures var compact := front + FractionPart(fraction);
            var i := IndexOf(compact, '.');
            && compact[..i] == front && IsFractionPart(compact[i..], displayDigits)
            && (IsGrouped(front) || (front != "" && AllDigits(front)))
            && Without(compact, IsComma) == whole + FractionPart(fraction)
  {
    hide Without, IndexOf, IsGrouped, Grouped, IsFractionPart, AllDigits;
    var tail := FractionPart(fraction);
    if front == whole {
      NoPointInDigits(whole);
      PlainWithout(whole, fraction);
    } else {
      GroupedIsGrouped(whole);
      CommasRemoved(whole, fraction);
    }
    PointPosition(front, fraction);
    FractionMatches(fraction, displayDigits);
    assert (front + tail)[..|front|] == front && (front + tail)[|front|..] == tail;
  }

  lemma {:induction false} PlainWithout(whole: string, fraction: string)
    requires AllDigits(whole) && AllDigits(fraction)
    ensures Without(whole + FractionPart(fraction), IsComma) == whole + FractionPart(fraction)
  {
    WithoutNothing(whole + FractionPart(fraction), IsComma);
  }

  lemma {:induction false} CleanedForm(raw: string, front: string, tail: string, whole: string, fraction: string, c: Currency, locale: Locale)
    requires Without(raw, IsSpace) == front + tail
    requires AreDigits(whole, fraction, c) && IsFront(front, whole, locale) && IsTail(tail, fraction, locale)
    ensures NormalizeDecimalInput(raw, MostPlaces(c), locale) == Some(whole + FractionPart(fraction))
  {
    hide Without, IndexOf, IsGrouped, Grouped, IsFractionPart, AllDigits, CommaToPoint;
    if locale.Ru? {
      RussianForm(whole, fraction, tail);
    } else {
      assert tail == FractionPart(fraction);
      EnglishForm(front, whole, fraction, MostPlaces(c));
    }
  }

  lemma {:induction false} ReadAmount(whole: string, fraction: string, c: Currency) returns (amount: nat)
    requires AreDigits(whole, fraction, c)
    ensures IsValueOf(amount, whole, fraction, c)
    ensures ShownUnits(whole + FractionPart(fraction), DisplayDigits(c)).Some?
    ensures amount == ShownUnits(whole + FractionPart(fraction), DisplayDigits(c)).value * HiddenScale(c)
  {
    hide AllDigits, Value, ShownUnits, IsDecimal, Padded, HiddenScale;
    amount := Padded(Value(whole), Value(fraction), |fraction|, MostPlaces(c)) * HiddenScale(c);
    ReadValue(Value(whole), Value(fraction), |fraction|, c);
    ShownOfParts(whole, fraction, c);
  }

  /** A number written with the separators of the locale, with spaces anywhere, is read at its value; it is
      refused only if it is zero where zero is not allowed, or beyond the safe integers. */
  lemma {:induction false} WrittenIsRead(raw: string, front: string, tail: string, whole: string, fraction: string,
                                         c: Currency, allowZero: bool, locale: Locale) returns (amount: nat)
    requires Without(raw, IsSpace) == front + tail
    requires AreDigits(whole, fraction, c) && IsFront(front, whole, locale) && IsTail(tail, fraction, locale)
    ensures IsValueOf(amount, whole, fraction, c)
    ensures ParseDecimalToMinor(raw, c, allowZero, locale)
            == if amount > MAX_SAFE || (amount == 0 && !allowZero) then None else Some(amount)
  {
    hide IsValueOf, ShownUnits, NormalizeDecimalInput, IsFront, IsTail, HiddenScale, MostPlaces, DisplayDigits, OneUnit, FractionPart;
    UnitIsPower(c);
    CleanedForm(raw, front, tail, whole, fraction, c, locale);
    amount := ReadAmount(whole, fraction, c);
  }

  // ---------------------------------------------------------------- only written numbers are read

  lemma {:induction false} ShownParts(cleaned: string, displayDigits: nat) returns (whole: string, fraction: string)
    requires ShownUnits(cleaned, displayDigits).Some?
    ensures whole != "" && AllDigits(whole) && AllDigits(fraction) && |fraction| <= displayDigits
    ensures cleaned == whole + FractionPart(fraction)
  {
    var i := IndexOf(cleaned, '.');
    whole := cleaned[..i];
    fraction := if cleaned[i..] == "" then "" else cleaned[i..][1..];
    assert cleaned == whole + cleaned[i..];
  }

  lemma {:induction false} FirstAt(s: string, c: char)
    ensures IndexOf(s, c) < |s| ==> s[IndexOf(s, c)] == c
    ensures IndexOf(s, c) == |s| ==> c !in s
  {
    if s != "" && s[0] != c {
      FirstAt(s[1..], c);
    }
  }

  lemma {:induction false} RussianParts(compact: string, whole: string, fraction: string)
    requires AllDigits(whole) && AllDigits(fraction) && CommaToPoint(compact) == whole + FractionPart(fraction)
    ensures exists tail :: IsTail(tail, fraction, Ru) && compact == whole + tail
  {
    hide IndexOf;
    var i := IndexOf(compact, ',');
    FirstAt(compact, ',');
    NoComma(whole);
    NoComma(fraction);
    var tail := FractionPart(fraction);
    if i == |compact| {
      assert IsTail(tail, fraction, Ru) && compact == whole + tail;
    } else {
      var cleaned := compact[i := '.'];
      assert cleaned[i] == '.';
      assert forall k :: 0 <= k < |whole| ==> cleaned[k] == whole[k];
      assert forall k :: |whole| < k < |cleaned| ==> cleaned[k] == fraction[k - |whole| - 1];
      assert i == |whole|;
      assert fraction != "" by { assert |cleaned| > |whole|; }
      var comma := "," + fraction;
      assert compact == whole + comma by {
        forall k | 0 <= k < |compact|
          ensures compact[k] == (whole + comma)[k]
        {
          if k != i { assert compact[k] == cleaned[k]; }
        }
      }
      assert IsTail(comma, fraction, Ru);
    }
  }

  lemma {:induction false} EnglishParts(compact: string, w: string, f: string, whole: string, fraction: string, displayDigits: nat)
    requires compact == w + f && IsFractionPart(f, displayDigits) && (IsGrouped(w) || (w != "" && AllDigits(w)))
    requires AllDigits(whole) && AllDigits(fraction) && Without(compact, IsComma) == whole + FractionPart(fraction)
    ensures f == FractionPart(fraction) && IsFront(w, whole, En)
  {
    hide Grouped, Without, IsGrouped;
    var digits := Without(w, IsComma);
    if IsGrouped(w) {
      GroupedBack(w);
    } else {
      WithoutNothing(w, IsComma);
    }
    WithoutConcat(w, f, IsComma);
    WithoutNothing(f, IsComma);
    assert digits + f == whole + FractionPart(fraction);
    SamePoint(digits, f, whole, FractionPart(fraction));
  }

  /** Two splits of one string before its point, or with no point at all, are the same. */
  lemma {:induction false} SamePoint(a: string, f: string, b: string, g: string)
    requires AllDigits(a) && AllDigits(b) && a + f == b + g
    requires (f == "" || f[0] == '.') && (g == "" || g[0] == '.')
    ensures a == b && f == g
  {
    SplitsAtPoint(a, f);
    SplitsAtPoint(b, g);
    var s := a + f;
    assert s[..|a|] == a && s[..|b|] == b && s[|a|..] == f && s[|b|..] == g;
  }

  lemma {:induction false} SplitsAtPoint(a: string, f: string)
    requires AllDigits(a) && (f == "" || f[0] == '.')
    ensures IndexOf(a + f, '.') == |a|
  {
    NoComma(a);
    if f == "" {
      assert a + f == a;
      NoOccurrence(a, '.');
    } else {
      SplitAtFirst(a, '.', f[1..]);
      assert a + ['.'] + f[1..] == a + f;
    }
  }

  /** Conversely, whatever the parser accepts is a number written that way, once the spaces are dropped, and the
      amount is its value. */
  lemma {:induction false} ReadIsWritten(raw: string, c: Currency, allowZero: bool, locale: Locale)
      returns (front: string, tail: string, whole: string, fraction: string)
    requires ParseDecimalToMinor(raw, c, allowZero, locale).Some?
    ensures Without(raw, IsSpace) == front + tail
    ensures AreDigits(whole, fraction, c) && IsFront(front, whole, locale) && IsTail(tail, fraction, locale)
    ensures IsValueOf(ParseDecimalToMinor(raw, c, allowZero, locale).value, whole, fraction, c)
  {
    hide Without, IndexOf, IsGrouped, Grouped, IsFractionPart, AllDigits, Value, Pow10, ShownUnits, CommaToPoint;
    var D := DisplayDigits(c);
    UnitIsPower(c);
    var compact := Without(raw, IsSpace);
    var cleaned := NormalizeDecimalInput(raw, D, locale).value;
    whole, fraction := ShownParts(cleaned, D);
    if locale.Ru? {
      RussianParts(compact, whole, fraction);
      tail :| IsTail(tail, fraction, Ru) && compact == whole + tail;
      front := whole;
    } else {
      var i := IndexOf(compact, '.');
      front, tail := compact[..i], compact[i..];
      assert compact == front + tail;
      EnglishParts(compact, front, tail, whole, fraction, D);
    }
    var amount := ReadAmount(whole, fraction, c);
  }

  // ---------------------------------------------------------------- what is printed

  /** A printed amount is the visible amount at its value, with all its decimal places, grouped for its locale,
      and its sign is that of the amount. */
  lemma {:induction false} PrintedIsValue(minor: int, c: Currency, locale: Locale, roundHiddenUp: bool) returns (whole: string)
    ensures var parts := PartsOf(minor, c, locale, roundHiddenUp);
            var shown := DisplayValue(if minor < 0 then -minor else minor, c, roundHiddenUp);
            && (parts.negative <==> minor < 0)
            && AreDigits(whole, parts.fraction, c) && |parts.fraction| == MostPlaces(c)
            && parts.whole == Grouped(whole, if locale.Ru? then '\U{202F}' else ',')
            && IsValueOf(shown * HiddenScale(c), whole, parts.fraction, c)
  {
    hide Grouped, Value, Pow10, DisplayValue, AllDigits, Show, PadStart;
    var shown := DisplayValue(if minor < 0 then -minor else minor, c, roundHiddenUp);
    var digits := DisplayDigits(c);
    var scale := Pow10(digits);
    var q, r := Quotient(shown, scale), shown % scale;
    UnitIsPower(c);
    whole := Show(q);
    ValueOfShow(q);
    FractionDigits(r, digits);
    PrintedProduct(shown, q, scale, r, HiddenScale(c), OneUnit(c));
  }

  lemma {:induction false} PrintedProduct(shown: nat, q: nat, scale: nat, r: nat, h: nat, unit: nat)
    requires shown == q * scale + r && scale * h == unit
    ensures (shown * h) * scale == (q * scale + r) * unit
  {
    assert (shown * h) * scale == shown * (scale * h);
  }
}
