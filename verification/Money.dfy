/** Exact money arithmetic: rounding division, conversion, consolidation and allocation. */
module Money {
  import opened Wrappers
  import opened Integers
  import opened DecimalText
  import R = Rounding

  // ----- rounding division -----

  /** Quotient rounded to the nearest, halves to even, on magnitudes; the sign is put back at the end. */
  function RoundMagnitude(n: nat, d: nat): nat
    requires 0 < d
  {
    Divided(n, d);
    var quotient: nat, remainder := n / d, n % d;
    if remainder * 2 > d || (remainder * 2 == d && quotient % 2 == 1) then quotient + 1 else quotient
  }

  function RoundDiv(num: int, den: int): int
    requires den != 0
  {
    var magnitude: int := RoundMagnitude(Abs(num), Abs(den));
    if (num < 0) != (den < 0) then -magnitude else magnitude
  }

  method BankersRoundDiv(num: int, den: int) returns (result: int)
    requires den != 0
    ensures result == RoundDiv(num, den)
  {
    var negative := (num < 0) != (den < 0);
    var n := if num < 0 then -num else num;
    var d := if den < 0 then -den else den;
    Divided(n, d);
    var quotient, remainder := n / d, n % d;
    var twiceRemainder := remainder * 2;
    result := quotient;
    if twiceRemainder > d || (twiceRemainder == d && quotient % 2 == 1) {
      result := result + 1;
    }
    if negative {
      result := -result;
    }
  }

  /** `r` is at most half a unit away from `num / den`, and even when exactly half. */
  predicate NearestTo(r: int, num: int, den: int) {
    var gap := 2 * (r * den - num);
    -den < gap < den || ((gap == den || gap == -den) && r % 2 == 0)
  }

  lemma MagnitudeIsNearest(n: nat, d: nat)
    requires 0 < d
    ensures NearestTo(RoundMagnitude(n, d), n, d)
  {
    Divided(n, d);
    var q: nat, r := n / d, n % d;
    assert (q + 1) * d == q * d + d;
  }

  lemma NegatedNearest(r: int, num: int, den: int)
    ensures NearestTo(-r, -num, den) <==> NearestTo(r, num, den)
  {
    assert -r * den == -(r * den);
  }

  lemma Distribute(r: int, s: int, den: int)
    ensures r * den - s * den == (r - s) * den
  {
  }

  lemma MultipleAtLeast(k: int, den: int)
    requires 0 < den
    ensures k >= 1 ==> k * den >= den
    ensures k >= 2 ==> k * den >= 2 * den
  {
    assert k >= 1 ==> (k - 1) * den >= 0;
    assert k >= 2 ==> (k - 2) * den >= 0;
  }

  lemma ScaledDifference(r: int, s: int, den: int)
    requires 0 < den
    ensures r > s ==> r * den - s * den >= den
    ensures r > s + 1 ==> r * den - s * den >= 2 * den
  {
    Distribute(r, s, den);
    MultipleAtLeast(r - s, den);
  }

  lemma NearestIsUnique(r: int, s: int, num: int, den: int)
    requires 0 < den && NearestTo(r, num, den) && NearestTo(s, num, den)
    ensures r == s
  {
    ScaledDifference(r, s, den);
    ScaledDifference(s, r, den);
  }

  lemma RoundDivIsNearest(num: int, den: int)
    requires 0 < den
    ensures NearestTo(RoundDiv(num, den), num, den)
  {
    MagnitudeIsNearest(Abs(num), den);
    NegatedNearest(RoundMagnitude(Abs(num), den), Abs(num), den);
  }

  /** Rounding division returns the nearest integer, the even one of two, and nothing else does. */
  lemma RoundDivExactly(num: int, den: int, r: int)
    requires 0 < den
    ensures RoundDiv(num, den) == r <==> NearestTo(r, num, den)
  {
    RoundDivIsNearest(num, den);
    if NearestTo(r, num, den) {
      NearestIsUnique(r, RoundDiv(num, den), num, den);
    }
  }

  /** Rounding treats both signs alike. */
  lemma RoundDivIsOdd(num: int, den: int)
    requires 0 < den
    ensures RoundDiv(-num, den) == -RoundDiv(num, den)
  {
    RoundDivIsNearest(num, den);
    NegatedNearest(RoundDiv(num, den), num, den);
    RoundDivExactly(-num, den, -RoundDiv(num, den));
  }

  lemma NearestMonotone(r: int, s: int, a: int, b: int, den: int)
    requires 0 < den && a <= b && NearestTo(r, a, den) && NearestTo(s, b, den)
    ensures r <= s
  {
    ScaledDifference(r, s, den);
  }

  lemma RoundDivMonotone(a: int, b: int, den: int)
    requires 0 < den && a <= b
    ensures RoundDiv(a, den) <= RoundDiv(b, den)
  {
    RoundDivIsNearest(a, den);
    RoundDivIsNearest(b, den);
    NearestMonotone(RoundDiv(a, den), RoundDiv(b, den), a, b, den);
  }

  /** The integer division and the rounding of the exact quotient agree. */
  lemma RoundDivIsBankersRound(num: int, den: int)
    requires 0 < den
    ensures RoundDiv(num, den) == R.BankersRound(num as real / den as real)
  {
    var r := RoundDiv(num, den);
    var value := num as real / den as real;
    RoundDivIsNearest(num, den);
    ScaledGap(r, num, den, value);
    R.RoundsToNearest(value, r);
  }

  lemma GapTimes(r: int, num: int, den: int, value: real)
    requires 0 < den && value == num as real / den as real
    ensures (r as real - value) * den as real == (r * den - num) as real
  {
    assert value * den as real == num as real;
    assert r as real * den as real == (r * den) as real;
  }

  /** Comparing a gap with one half, scaled by `d`. */
  lemma HalfScaled(gap: real, d: real, scaled: real)
    requires 0.0 < d && gap * d == scaled
    ensures (2.0 * scaled < d <==> gap < 0.5) && (2.0 * scaled == d <==> gap == 0.5)
    ensures (2.0 * scaled > -d <==> gap > -0.5) && (2.0 * scaled == -d <==> gap == -0.5)
  {
    assert (gap - 0.5) * d == scaled - 0.5 * d;
    assert (gap + 0.5) * d == scaled + 0.5 * d;
  }

  lemma ScaledGap(r: int, num: int, den: int, value: real)
    requires 0 < den && value == num as real / den as real
    ensures NearestTo(r, num, den) ==> R.Nearest(r, value)
  {
    GapTimes(r, num, den, value);
    HalfScaled(r as real - value, den as real, (r * den - num) as real);
  }

  // ----- conversion -----

  datatype Fraction = Fraction(numerator: int, denominator: int)

  datatype MoneyError = InvalidDecimal | NoRatio | NonPositiveRatioTotal

  /** The value of a hexadecimal digit, and 16 for every other character. */
  function HexValue(c: char): nat {
    if IsDigit(c) then DigitValue(c)
    else if 'a' <= c <= 'f' then c as int - 'a' as int + 10
    else if 'A' <= c <= 'F' then c as int - 'A' as int + 10
    else 16
  }

  function TimesBase(v: nat, base: nat): nat {
    if base == 16 then 16 * v else if base == 8 then 8 * v else 2 * v
  }

  /** The value of hexadecimal, octal or binary digits. */
  function BaseValue(s: string, base: nat): nat {
    if s == [] then 0 else TimesBase(BaseValue(s[..|s| - 1], base), base) + HexValue(s[|s| - 1])
  }

  /** 16, 8 or 2 for the text of a literal with a prefix, and 10 otherwise. */
  function BaseOf(text: string): nat {
    if |text| <= 2 || text[0] != '0' then 10
    else if text[1] == 'x' || text[1] == 'X' then 16
    else if text[1] == 'o' || text[1] == 'O' then 8
    else if text[1] == 'b' || text[1] == 'B' then 2
    else 10
  }

  function ReadWithPrefix(text: string): Result<int, MoneyError>
    requires |text| > 2
  {
    if forall c :: c in text[2..] ==> HexValue(c) < BaseOf(text) then Success(BaseValue(text[2..], BaseOf(text)))
    else Failure(InvalidDecimal)
  }

  function ReadSigned(text: string): Result<int, MoneyError>
    requires text != []
  {
    var digits := if text[0] == '-' || text[0] == '+' then text[1..] else text;
    if digits == [] || !AllDigits(digits) then Failure(InvalidDecimal)
    else Success(if text[0] == '-' then -(Value(digits) as int) else Value(digits))
  }

  /** `BigInt(text)`: blanks around the number are ignored, nothing at all is 0, and only a decimal number may have a sign. */
  function ReadBigInt(text: string): Result<int, MoneyError> {
    var trimmed := Trim(text);
    if trimmed == [] then Success(0)
    else if BaseOf(trimmed) != 10 then ReadWithPrefix(trimmed)
    else ReadSigned(trimmed)
  }

  function WithoutMinus(value: string): string {
    if StartsWith(value, '-') then value[1..] else value
  }

  function FractionOf(negative: bool, whole: string, fraction: string): (r: Result<Fraction, MoneyError>)
    ensures r.Success? ==> r.value.denominator > 0
  {
    match ReadBigInt(whole + fraction)
    case Failure(error) => Failure(error)
    case Success(numerator) => Success(Fraction(if negative then -numerator else numerator, Pow10(|fraction|)))
  }

  /** A decimal string as an exact fraction. */
  function ParseDecimal(value: string): (r: Result<Fraction, MoneyError>)
    ensures r.Success? ==> r.value.denominator > 0
  {
    var parts := SplitTwo(WithoutMinus(value), ".");
    FractionOf(StartsWith(value, '-'), parts.0, parts.1)
  }

  lemma ReadDigits(s: string)
    requires s != [] && AllDigits(s)
    ensures ReadBigInt(s) == Success(Value(s))
  {
    assert s[0] in s;
    assert |s| > 1 ==> s[1] in s;
    TrimKeeps(s);
  }

  lemma FractionOfDigits(negative: bool, whole: string, frac: string)
    requires whole != [] && AllDigits(whole) && AllDigits(frac)
    ensures AllDigits(whole + frac)
    ensures FractionOf(negative, whole, frac)
         == Success(Fraction(if negative then -(Value(whole + frac) as int) else Value(whole + frac) as int, Pow10(|frac|)))
  {
    ReadDigits(whole + frac);
  }

  lemma ParseDecimalSigned(negative: bool, body: string)
    requires body != [] && IsDigit(body[0])
    ensures ParseDecimal(Sign(negative) + body) == FractionOf(negative, SplitTwo(body, ".").0, SplitTwo(body, ".").1)
  {
    UnsignedIs(negative, body);
    assert WithoutMinus(Sign(negative) + body) == body;
  }

  lemma ParseDecimalParts(negative: bool, body: string, whole: string, frac: string)
    requires whole != [] && AllDigits(whole) && AllDigits(frac) && SplitTwo(body, ".") == (whole, frac)
    requires body != [] && IsDigit(body[0])
    ensures AllDigits(whole + frac)
    ensures ParseDecimal(Sign(negative) + body)
         == Success(Fraction(if negative then -(Value(whole + frac) as int) else Value(whole + frac) as int, Pow10(|frac|)))
  {
    ParseDecimalSigned(negative, body);
    FractionOfDigits(negative, whole, frac);
  }

  lemma ParseDecimalOfFraction(amountMinor: int, minorUnits: nat)
    requires 0 < minorUnits
    ensures ParseDecimal(ToDecimalString(amountMinor, minorUnits)) == Success(Fraction(amountMinor, Pow10(minorUnits)))
  {
    var whole, frac := ToDigits(WholePart(Abs(amountMinor), minorUnits)), Frac(Abs(amountMinor), minorUnits);
    PrintedText(amountMinor, minorUnits);
    PrintedParts(Abs(amountMinor), minorUnits);
    SplitsAtPoint(whole, frac);
    assert whole[0] in whole && (whole + "." + frac)[0] == whole[0];
    ParseDecimalParts(amountMinor < 0, whole + "." + frac, whole, frac);
  }

  lemma WithoutPoint(whole: string, none: string)
    requires whole != [] && AllDigits(whole) && none == []
    ensures SplitTwo(whole, ".") == (whole, none) && IsDigit(whole[0])
  {
    SplitsAtPoint(whole, none);
    assert whole[0] in whole;
  }

  lemma ValueWithNothing(whole: string, none: string)
    requires AllDigits(whole) && none == []
    ensures AllDigits(whole + none) && Value(whole + none) == Value(whole) && Pow10(|none|) == 1
  {
    assert whole + none == whole;
  }

  lemma ParseDecimalOfDigits(negative: bool, whole: string, none: string)
    requires whole != [] && AllDigits(whole) && none == []
    ensures ParseDecimal(Sign(negative) + whole)
         == Success(Fraction(if negative then -(Value(whole) as int) else Value(whole) as int, 1))
  {
    WithoutPoint(whole, none);
    ValueWithNothing(whole, none);
    ParseDecimalParts(negative, whole, whole, none);
  }

  lemma PrintedWhole(amountMinor: int)
    ensures ToDecimalString(amountMinor, 0) == Sign(amountMinor < 0) + ToDigits(Abs(amountMinor))
    ensures Value(ToDigits(Abs(amountMinor))) == Abs(amountMinor)
  {
    WholeOfWhole(Abs(amountMinor));
    PrintedText(amountMinor, 0);
    ValueOfDigits(Abs(amountMinor));
  }

  lemma ParseDecimalOfWhole(amountMinor: int)
    ensures ParseDecimal(ToDecimalString(amountMinor, 0)) == Success(Fraction(amountMinor, 1))
  {
    PrintedWhole(amountMinor);
    ParseDecimalOfDigits(amountMinor < 0, ToDigits(Abs(amountMinor)), []);
  }

  /** Reading a printed amount as a decimal gives exactly the amount over its power of ten. */
  lemma ParseDecimalOfPrinted(amountMinor: int, minorUnits: nat)
    ensures ParseDecimal(ToDecimalString(amountMinor, minorUnits)) == Success(Fraction(amountMinor, Pow10(minorUnits)))
  {
    if minorUnits > 0 {
      ParseDecimalOfFraction(amountMinor, minorUnits);
    } else {
      ParseDecimalOfWhole(amountMinor);
    }
  }

  /** The exact converted amount, as a fraction. */
  function ExactConversion(amountMinor: int, rate: Fraction, fromMinorUnits: int, toMinorUnits: int): (r: Fraction)
    requires rate.denominator > 0
    ensures r.denominator > 0
  {
    var delta := toMinorUnits - fromMinorUnits;
    if delta >= 0 then Fraction(amountMinor * rate.numerator * Pow10(delta), rate.denominator)
    else
      PositiveProduct(rate.denominator, Pow10(-delta));
      Fraction(amountMinor * rate.numerator, rate.denominator * Pow10(-delta))
  }

  lemma PositiveProduct(a: int, b: int)
    requires 0 < a && 0 < b
    ensures 0 < a * b
  {
  }

  function Converted(amountMinor: int, rate: string, fromMinorUnits: int, toMinorUnits: int): Result<int, MoneyError> {
    match ParseDecimal(rate)
    case Failure(error) => Failure(error)
    case Success(fraction) =>
      var exact := ExactConversion(amountMinor, fraction, fromMinorUnits, toMinorUnits);
      Success(RoundDiv(exact.numerator, exact.denominator))
  }

  method Convert(amountMinor: int, rate: string, fromMinorUnits: int, toMinorUnits: int)
    returns (converted: Result<int, MoneyError>)
    ensures converted == Converted(amountMinor, rate, fromMinorUnits, toMinorUnits)
  {
    var parsed := ParseDecimal(rate);
    if parsed.Failure? {
      return Failure(parsed.error);
    }
    var delta := toMinorUnits - fromMinorUnits;
    var num := amountMinor * parsed.value.numerator;
    var den := parsed.value.denominator;
    if delta >= 0 {
      num := num * Pow10(delta);
    } else {
      PositiveProduct(den, Pow10(-delta));
      den := den * Pow10(-delta);
    }
    var rounded := BankersRoundDiv(num, den);
    return Success(rounded);
  }

  // ----- consolidation -----

  datatype CurrencyAmount = CurrencyAmount(currency: string, amountMinor: int)

  datatype Rate = Rate(rate: string, fromMinorUnits: int, toMinorUnits: int)

  function InBase(amount: CurrencyAmount, base: string, lookup: string -> Rate): Result<int, MoneyError> {
    if amount.currency == base then Success(amount.amountMinor)
    else
      var r := lookup(amount.currency);
      Converted(amount.amountMinor, r.rate, r.fromMinorUnits, r.toMinorUnits)
  }

  /** The exact value of an amount in the base currency. */
  function ExactInBase(amount: CurrencyAmount, base: string, lookup: string -> Rate): real {
    if amount.currency == base then amount.amountMinor as real
    else
      var r := lookup(amount.currency);
      match ParseDecimal(r.rate)
      case Failure(_) => 0.0
      case Success(fraction) =>
        var exact := ExactConversion(amount.amountMinor, fraction, r.fromMinorUnits, r.toMinorUnits);
        exact.numerator as real / exact.denominator as real
  }

  function Foreign(amounts: seq<CurrencyAmount>, base: string): nat {
    if amounts == [] then 0
    else Foreign(amounts[..|amounts| - 1], base) + if amounts[|amounts| - 1].currency == base then 0 else 1
  }

  function ExactTotal(amounts: seq<CurrencyAmount>, base: string, lookup: string -> Rate): real {
    if amounts == [] then 0.0
    else ExactTotal(amounts[..|amounts| - 1], base, lookup) + ExactInBase(amounts[|amounts| - 1], base, lookup)
  }

  predicate Readable(amounts: seq<CurrencyAmount>, base: string, lookup: string -> Rate) {
    forall a :: a in amounts ==> a.currency == base || ParseDecimal(lookup(a.currency).rate).Success?
  }

  predicate Within(x: int, exact: real, units: nat) {
    -(units as real) <= 2.0 * (x as real - exact) <= units as real
  }

  /** One conversion is off by at most half a minor unit, an amount in the base currency by nothing. */
  lemma ConversionError(amount: CurrencyAmount, base: string, lookup: string -> Rate)
    requires InBase(amount, base, lookup).Success?
    ensures Within(InBase(amount, base, lookup).value, ExactInBase(amount, base, lookup),
                   if amount.currency == base then 0 else 1)
  {
    if amount.currency != base {
      var r := lookup(amount.currency);
      var exact := ExactConversion(amount.amountMinor, ParseDecimal(r.rate).value, r.fromMinorUnits, r.toMinorUnits);
      RoundDivIsBankersRound(exact.numerator, exact.denominator);
      R.RoundedWithinHalf(exact.numerator as real / exact.denominator as real);
    }
  }

  lemma InBaseReads(amount: CurrencyAmount, base: string, lookup: string -> Rate)
    ensures InBase(amount, base, lookup).Success?
       <==> amount.currency == base || ParseDecimal(lookup(amount.currency).rate).Success?
  {
  }

  lemma WithinMore(x: int, exact: real, units: nat, y: int, more: real, moreUnits: nat)
    requires Within(x, exact, units) && Within(y, more, moreUnits)
    ensures Within(x + y, exact + more, units + moreUnits)
  {
  }

  /** One more amount, converted, stays within its share of the error. */
  lemma OneMoreAmount(amounts: seq<CurrencyAmount>, i: nat, base: string, lookup: string -> Rate, total: int)
    requires i < |amounts| && InBase(amounts[i], base, lookup).Success?
    requires Within(total, ExactTotal(amounts[..i], base, lookup), Foreign(amounts[..i], base))
    ensures Within(total + InBase(amounts[i], base, lookup).value, ExactTotal(amounts[..i + 1], base, lookup),
                   Foreign(amounts[..i + 1], base))
  {
    assert amounts[..i + 1][..i] == amounts[..i];
    ConversionError(amounts[i], base, lookup);
    WithinMore(total, ExactTotal(amounts[..i], base, lookup), Foreign(amounts[..i], base),
      InBase(amounts[i], base, lookup).value, ExactInBase(amounts[i], base, lookup), if amounts[i].currency == base then 0 else 1);
  }

  predicate AllConverted(amounts: seq<CurrencyAmount>, n: nat, base: string, lookup: string -> Rate)
    requires n <= |amounts|
  {
    forall i :: 0 <= i < n ==> InBase(amounts[i], base, lookup).Success?
  }

  lemma ReadableIs(amounts: seq<CurrencyAmount>, base: string, lookup: string -> Rate)
    ensures Readable(amounts, base, lookup) <==> AllConverted(amounts, |amounts|, base, lookup)
  {
    forall a | a in amounts
      ensures InBase(a, base, lookup).Success? <==> a.currency == base || ParseDecimal(lookup(a.currency).rate).Success?
    {
      InBaseReads(a, base, lookup);
    }
    forall i | 0 <= i < |amounts| ensures amounts[i] in amounts {
    }
  }

  method ConvertToBase(amount: CurrencyAmount, base: string, lookup: string -> Rate) returns (converted: Result<int, MoneyError>)
    ensures converted == InBase(amount, base, lookup)
  {
    if amount.currency == base {
      return Success(amount.amountMinor);
    }
    var r := lookup(amount.currency);
    converted := Convert(amount.amountMinor, r.rate, r.fromMinorUnits, r.toMinorUnits);
  }

  /** The consolidated total is within half a minor unit per converted amount of the exact sum. It fails exactly when a
      needed rate cannot be read. */
  method ConsolidateToBase(amounts: seq<CurrencyAmount>, base: string, lookup: string -> Rate)
    returns (result: Result<int, MoneyError>)
    ensures result.Success? <==> Readable(amounts, base, lookup)
    ensures result.Success? ==> Within(result.value, ExactTotal(amounts, base, lookup), Foreign(amounts, base))
  {
    var total := 0;
    ReadableIs(amounts, base, lookup);
    for i := 0 to |amounts|
      invariant AllConverted(amounts, i, base, lookup)
      invariant Within(total, ExactTotal(amounts[..i], base, lookup), Foreign(amounts[..i], base))
    {
      var converted := ConvertToBase(amounts[i], base, lookup);
      if converted.Failure? {
        return Failure(converted.error);
      }
      OneMoreAmount(amounts, i, base, lookup, total);
      total := total + converted.value;
    }
    assert amounts[..|amounts|] == amounts;
    return Success(total);
  }
}
