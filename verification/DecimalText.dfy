/** Amounts as decimal text: the exact printer of exports and the parser of imported files. */
module DecimalText {
  import opened Wrappers
  import opened Integers

  // ----- digits -----

  function Pow10(n: nat): (r: nat)
    ensures r > 0
  {
    if n == 0 then 1 else 10 * Pow10(n - 1)
  }

  predicate IsDigit(c: char) {
    '0' <= c <= '9'
  }

  predicate AllDigits(s: string) {
    forall c :: c in s ==> IsDigit(c)
  }

  function DigitOf(d: nat): (c: char)
    requires d < 10
    ensures IsDigit(c) && DigitValue(c) == d
  {
    ['0', '1', '2', '3', '4', '5', '6', '7', '8', '9'][d]
  }

  function DigitValue(c: char): (d: nat)
    requires IsDigit(c)
    ensures d < 10
  {
    c as int - '0' as int
  }

  function ToDigits(n: nat): (s: string)
    ensures s != [] && AllDigits(s)
  {
    if n < 10 then [DigitOf(n)] else ToDigits(n / 10) + [DigitOf(n % 10)]
  }

  /** The number a string of digits stands for. */
  function Value(s: string): nat
    requires AllDigits(s)
  {
    if s == [] then 0 else Value(s[..|s| - 1]) * 10 + DigitValue(s[|s| - 1])
  }

  function Zeros(n: nat): (s: string)
    ensures |s| == n && AllDigits(s)
  {
    seq(n, _ => '0')
  }

  function PadStart(s: string, n: nat): string {
    if |s| >= n then s else Zeros(n - |s|) + s
  }

  function PadEnd(s: string, n: nat): string {
    if |s| >= n then s else s + Zeros(n - |s|)
  }

  lemma {:induction false} ValueOfDigits(n: nat)
    ensures Value(ToDigits(n)) == n
  {
    if n >= 10 {
      ValueOfDigits(n / 10);
      assert ToDigits(n)[..|ToDigits(n)| - 1] == ToDigits(n / 10);
    }
  }

  /** `v` with `k` zeros behind it. */
  function Shifted(v: nat, k: nat): nat {
    if k == 0 then v else 10 * Shifted(v, k - 1)
  }

  lemma {:induction false} ShiftedIsProduct(v: nat, k: nat)
    ensures Shifted(v, k) == v * Pow10(k)
  {
    if k > 0 {
      ShiftedIsProduct(v, k - 1);
      TimesTen(v, Pow10(k - 1));
    }
  }

  lemma TimesTen(v: nat, p: nat)
    ensures 10 * (v * p) == v * (10 * p)
  {
  }

  lemma {:induction false} ValueOfConcat(a: string, b: string)
    requires AllDigits(a) && AllDigits(b)
    ensures AllDigits(a + b) && Value(a + b) == Shifted(Value(a), |b|) + Value(b)
    decreases |b|
  {
    if b == [] {
      assert a + b == a;
    } else {
      ValueOfConcat(a, b[..|b| - 1]);
      assert (a + b)[..|a + b| - 1] == a + b[..|b| - 1];
    }
  }

  lemma {:induction false} ValueOfZeros(n: nat)
    ensures Value(Zeros(n)) == 0
  {
    if n > 0 {
      assert Zeros(n)[..n - 1] == Zeros(n - 1);
      ValueOfZeros(n - 1);
    }
  }

  lemma {:induction false} DigitsFit(n: nat, u: nat)
    requires 0 < u && n < Pow10(u)
    ensures |ToDigits(n)| <= u
  {
    if n >= 10 {
      DigitsFit(n / 10, u - 1);
    }
  }

  // ----- printing -----

  function Sign(negative: bool): string {
    if negative then "-" else ""
  }

  function WholePart(abs: nat, minorUnits: nat): nat {
    Divided(abs, Pow10(minorUnits));
    abs / Pow10(minorUnits)
  }

  function FracPart(abs: nat, minorUnits: nat): (r: nat)
    ensures r < Pow10(minorUnits) && abs == WholePart(abs, minorUnits) * Pow10(minorUnits) + r
  {
    Divided(abs, Pow10(minorUnits));
    abs % Pow10(minorUnits)
  }

  function ToDecimalString(amountMinor: int, minorUnits: nat): string {
    var negative := amountMinor < 0;
    var abs := Abs(amountMinor);
    var whole := WholePart(abs, minorUnits);
    var frac := PadStart(ToDigits(FracPart(abs, minorUnits)), minorUnits);
    var value := if minorUnits > 0 then ToDigits(whole) + "." + frac else ToDigits(whole);
    if negative then "-" + value else value
  }

  lemma PaddedValue(n: nat, u: nat)
    requires 0 < u && n < Pow10(u)
    ensures var s := PadStart(ToDigits(n), u); |s| == u && AllDigits(s) && Value(s) == n
  {
    var s := ToDigits(n);
    ValueOfDigits(n);
    DigitsFit(n, u);
    if |s| < u {
      ValueOfZeros(u - |s|);
      ValueOfConcat(Zeros(u - |s|), s);
      ShiftedIsProduct(0, |s|);
    }
  }

  function Frac(abs: nat, u: nat): string {
    PadStart(ToDigits(FracPart(abs, u)), u)
  }

  /** The printed parts are digits that stand for the amount, with exactly as many decimals as the currency has. */
  lemma PrintedParts(abs: nat, u: nat)
    requires u > 0
    ensures AllDigits(Frac(abs, u)) && |Frac(abs, u)| == u
    ensures AllDigits(ToDigits(WholePart(abs, u)) + Frac(abs, u))
    ensures Value(ToDigits(WholePart(abs, u)) + Frac(abs, u)) == abs
  {
    PaddedValue(FracPart(abs, u), u);
    ValueOfDigits(WholePart(abs, u));
    ValueOfConcat(ToDigits(WholePart(abs, u)), Frac(abs, u));
    ShiftedIsProduct(WholePart(abs, u), u);
  }

  // ----- cleaning -----

  /** White space as JavaScript's `trim` and `\s` see it. */
  predicate IsSpace(c: char) {
    '\t' <= c <= '\r' || c == ' ' || c == '\U{A0}' || c == '\U{1680}' || '\U{2000}' <= c <= '\U{200A}'
    || c == '\U{2028}' || c == '\U{2029}' || c == '\U{202F}' || c == '\U{205F}' || c == '\U{3000}' || c == '\U{FEFF}'
  }

  function TrimStart(s: string): string {
    if s != [] && IsSpace(s[0]) then TrimStart(s[1..]) else s
  }

  function TrimEnd(s: string): string {
    if s != [] && IsSpace(s[|s| - 1]) then TrimEnd(s[..|s| - 1]) else s
  }

  function Trim(s: string): string {
    TrimEnd(TrimStart(s))
  }

  function ReplaceNbsp(s: string): string {
    seq(|s|, i requires 0 <= i < |s| => if s[i] == '\U{A0}' || s[i] == '\U{202F}' then ' ' else s[i])
  }

  function Upper(c: char): char {
    if 'a' <= c <= 'z' then c - 'a' + 'A' else c
  }

  /** The word starts the string, whatever the case of its letters. */
  predicate StartsWithWord(s: string, word: string) {
    |word| <= |s| && forall i :: 0 <= i < |word| ==> Upper(s[i]) == word[i]
  }

  /** The length of the currency symbol or code the string starts with, or 0. */
  function SymbolLength(s: string): (n: nat)
    ensures n <= |s|
  {
    if s != [] && (s[0] == '\U{20AC}' || s[0] == '$' || s[0] == '\U{A3}' || s[0] == '\U{A5}') then 1
    else if StartsWithWord(s, "CFA") then 3
    else if StartsWithWord(s, "FCFA") then 4
    else if StartsWithWord(s, "XOF") then 3
    else if StartsWithWord(s, "EUR") then 3
    else if StartsWithWord(s, "USD") then 3
    else 0
  }

  function RemoveSymbols(s: string): string
    decreases |s|
  {
    if s == [] then []
    else if SymbolLength(s) > 0 then RemoveSymbols(s[SymbolLength(s)..])
    else [s[0]] + RemoveSymbols(s[1..])
  }

  predicate IsLineEnd(c: char) {
    c == '\n' || c == '\r' || c == '\U{2028}' || c == '\U{2029}'
  }

  /** The accounting form of a negative amount. */
  predicate InParentheses(s: string) {
    |s| >= 2 && s[0] == '(' && s[|s| - 1] == ')' && forall i :: 0 < i < |s| - 1 ==> !IsLineEnd(s[i])
  }

  /** `s.split(sep).join('')` */
  function RemoveAll(s: string, sep: string): string
    decreases |s|
  {
    if sep == [] || s == [] then s
    else if sep <= s then RemoveAll(s[|sep|..], sep)
    else [s[0]] + RemoveAll(s[1..], sep)
  }

  function RemoveSpaces(s: string): string {
    if s == [] then [] else (if IsSpace(s[0]) then [] else [s[0]]) + RemoveSpaces(s[1..])
  }

  /** What stands before the first separator. */
  function UpTo(s: string, sep: string): (r: string)
    requires sep != []
    ensures |r| <= |s|
    decreases |s|
  {
    if s == [] || sep <= s then [] else [s[0]] + UpTo(s[1..], sep)
  }

  /** `const [wholePart = '0', fracPart = ''] = s.split(sep)`: parts after the second are dropped. */
  function SplitTwo(s: string, sep: string): (string, string) {
    if sep == [] then (if s == [] then ("0", "") else (s[..1], if |s| > 1 then s[1..2] else ""))
    else
      var whole := UpTo(s, sep);
      (whole, if |whole| + |sep| <= |s| then UpTo(s[|whole| + |sep|..], sep) else "")
  }

  // ----- parsing -----

  datatype AmountError = NonNumeric | TooManyDecimals

  function Cleaned(raw: string): string {
    Trim(RemoveSymbols(ReplaceNbsp(Trim(raw))))
  }

  function WithoutParentheses(s: string): string {
    if InParentheses(s) then Trim(s[1..|s| - 1]) else s
  }

  predicate StartsWith(s: string, c: char) {
    s != [] && s[0] == c
  }

  function Unsigned(s: string): string {
    var noMinus := if StartsWith(s, '-') then s[1..] else s;
    if StartsWith(noMinus, '+') then noMinus[1..] else noMinus
  }

  predicate IsNegative(cleaned: string) {
    InParentheses(cleaned) || StartsWith(WithoutParentheses(cleaned), '-')
  }

  function Magnitude(cleaned: string, thousandSeparator: string): string {
    RemoveAll(RemoveSpaces(RemoveAll(Unsigned(WithoutParentheses(cleaned)), thousandSeparator)), "'")
  }

  function WholeOrZero(whole: string): string {
    if whole == [] then "0" else whole
  }

  function ParseParts(whole: string, frac: string, negative: bool, minorUnits: nat): Result<int, AmountError> {
    if !AllDigits(whole) || !AllDigits(frac) then Failure(NonNumeric)
    else if |frac| > minorUnits then Failure(TooManyDecimals)
    else
      var digits := WholeOrZero(whole) + PadEnd(frac, minorUnits);
      assert AllDigits(digits);
      var value: int := Value(digits);
      Success(if negative then -value else value)
  }

  function ParseAmount(raw: string, minorUnits: nat, decimalSeparator: string, thousandSeparator: string):
    Result<int, AmountError>
  {
    var cleaned := Cleaned(raw);
    var parts := SplitTwo(Magnitude(cleaned, thousandSeparator), decimalSeparator);
    ParseParts(parts.0, parts.1, IsNegative(cleaned), minorUnits)
  }

  // ----- what cleaning yields -----

  /** The digits of a text, in order. */
  function Digits(s: string): string {
    if s == [] then [] else if IsDigit(s[0]) then [s[0]] + Digits(s[1..]) else Digits(s[1..])
  }

  lemma {:induction false} DigitsAreDigits(s: string)
    ensures AllDigits(Digits(s))
  {
    if s != [] {
      DigitsAreDigits(s[1..]);
    }
  }

  predicate NoDigits(s: string) {
    forall c :: c in s ==> !IsDigit(c)
  }

  lemma {:induction false} DigitsOfConcat(a: string, b: string)
    ensures Digits(a + b) == Digits(a) + Digits(b)
  {
    if a == [] {
      assert a + b == b;
    } else {
      DigitsOfConcat(a[1..], b);
      assert (a + b)[0] == a[0] && (a + b)[1..] == a[1..] + b;
      if IsDigit(a[0]) {
        assert [a[0]] + (Digits(a[1..]) + Digits(b)) == [a[0]] + Digits(a[1..]) + Digits(b);
      }
    }
  }

  lemma {:induction false} DigitsOfNone(s: string)
    requires NoDigits(s)
    ensures Digits(s) == []
  {
    if s != [] {
      assert s[0] in s;
      DigitsOfNone(s[1..]);
    }
  }

  lemma {:induction false} DigitsOfDigits(s: string)
    requires AllDigits(s)
    ensures Digits(s) == s
  {
    if s != [] {
      assert s[0] in s;
      DigitsOfDigits(s[1..]);
    }
  }

  lemma ThreePieces(s: string, a: string, b: string, c: string)
    requires s == a + b + c
    ensures Digits(s) == Digits(a) + Digits(b) + Digits(c)
  {
    DigitsOfConcat(a, b);
    DigitsOfConcat(a + b, c);
  }

  lemma WithoutEnds(s: string, a: string, b: string, c: string)
    requires s == a + b + c && NoDigits(a) && NoDigits(c)
    ensures Digits(b) == Digits(s)
  {
    DigitsOfNone(a);
    DigitsOfNone(c);
    ThreePieces(s, a, b, c);
  }

  /** Taking off ends without digits takes no digit. */
  lemma DigitsOfMiddle(s: string, lo: nat, hi: nat)
    requires lo <= hi <= |s| && NoDigits(s[..lo]) && NoDigits(s[hi..])
    ensures Digits(s[lo..hi]) == Digits(s)
  {
    assert s == s[..lo] + s[lo..hi] + s[hi..];
    WithoutEnds(s, s[..lo], s[lo..hi], s[hi..]);
  }

  lemma {:induction false} TrimStartDigits(s: string)
    ensures Digits(TrimStart(s)) == Digits(s)
  {
    if s != [] && IsSpace(s[0]) {
      TrimStartDigits(s[1..]);
    }
  }

  lemma {:induction false} TrimEndDigits(s: string)
    ensures Digits(TrimEnd(s)) == Digits(s)
  {
    if s != [] && IsSpace(s[|s| - 1]) {
      TrimEndDigits(s[..|s| - 1]);
      DigitsOfMiddle(s, 0, |s| - 1);
      assert s[0..|s| - 1] == s[..|s| - 1];
    }
  }

  lemma TrimDigits(s: string)
    ensures Digits(Trim(s)) == Digits(s)
  {
    TrimStartDigits(s);
    TrimEndDigits(TrimStart(s));
  }

  lemma {:induction false} NbspDigits(s: string)
    ensures Digits(ReplaceNbsp(s)) == Digits(s)
  {
    if s != [] {
      NbspDigits(s[1..]);
      assert ReplaceNbsp(s)[1..] == ReplaceNbsp(s[1..]);
    }
  }

  lemma WordHasNoDigit(s: string, word: string)
    requires StartsWithWord(s, word) && forall c :: c in word ==> 'A' <= c <= 'Z'
    ensures NoDigits(s[..|word|])
  {
    forall c | c in s[..|word|] ensures !IsDigit(c) {
      var i: nat :| i < |word| && s[i] == c;
      assert word[i] in word && Upper(c) == word[i];
    }
  }

  lemma SymbolHasNoDigit(s: string)
    ensures NoDigits(s[..SymbolLength(s)])
  {
    if s != [] && (s[0] == '\U{20AC}' || s[0] == '$' || s[0] == '\U{A3}' || s[0] == '\U{A5}') {
      assert s[..1] == [s[0]];
    } else if StartsWithWord(s, "CFA") {
      WordHasNoDigit(s, "CFA");
    } else if StartsWithWord(s, "FCFA") {
      WordHasNoDigit(s, "FCFA");
    } else if StartsWithWord(s, "XOF") {
      WordHasNoDigit(s, "XOF");
    } else if StartsWithWord(s, "EUR") {
      WordHasNoDigit(s, "EUR");
    } else if StartsWithWord(s, "USD") {
      WordHasNoDigit(s, "USD");
    }
  }

  lemma {:induction false} SymbolDigits(s: string)
    ensures Digits(RemoveSymbols(s)) == Digits(s)
    decreases |s|
  {
    if s != [] {
      var n := SymbolLength(s);
      if n > 0 {
        SymbolDigits(s[n..]);
        SymbolHasNoDigit(s);
        DigitsOfMiddle(s, n, |s|);
        assert s[n..|s|] == s[n..] && s[|s|..] == [];
      } else {
        SymbolDigits(s[1..]);
        assert RemoveSymbols(s)[1..] == RemoveSymbols(s[1..]);
      }
    }
  }

  lemma ParenthesesDigits(s: string)
    ensures Digits(WithoutParentheses(s)) == Digits(s)
  {
    if InParentheses(s) {
      TrimDigits(s[1..|s| - 1]);
      assert s[..1] == "(" && s[|s| - 1..] == ")";
      DigitsOfMiddle(s, 1, |s| - 1);
    }
  }

  lemma UnsignedDigits(s: string)
    ensures Digits(Unsigned(s)) == Digits(s)
  {
  }

  lemma {:induction false} SpaceDigits(s: string)
    ensures Digits(RemoveSpaces(s)) == Digits(s)
  {
    if s != [] {
      SpaceDigits(s[1..]);
      assert RemoveSpaces(s) == if IsSpace(s[0]) then RemoveSpaces(s[1..]) else [s[0]] + RemoveSpaces(s[1..]);
      assert !IsSpace(s[0]) ==> RemoveSpaces(s)[1..] == RemoveSpaces(s[1..]);
    }
  }

  lemma StartsWithOne(s: string, sep: string)
    requires s != [] && |sep| == 1
    ensures sep <= s <==> s[0] == sep[0]
  {
    assert sep == [sep[0]];
  }

  /** Removing one character and picking the digits can be exchanged. */
  lemma {:induction false} SeparatorDigits(s: string, sep: string)
    requires |sep| <= 1
    ensures Digits(RemoveAll(s, sep)) == RemoveAll(Digits(s), sep)
    decreases |s|
  {
    if s != [] && sep != [] {
      StartsWithOne(s, sep);
      SeparatorDigits(s[1..], sep);
      if s[0] != sep[0] {
        assert RemoveAll(s, sep)[1..] == RemoveAll(s[1..], sep);
      }
      if IsDigit(s[0]) {
        StartsWithOne(Digits(s), sep);
        assert Digits(s)[1..] == Digits(s[1..]);
      }
    }
  }

  /** Removing one character leaves the other characters of the text, and none like it. */
  lemma {:induction false} RemovedAll(s: string, sep: string)
    requires |sep| <= 1
    ensures forall c :: c in RemoveAll(s, sep) ==> c in s && c !in sep
    decreases |s|
  {
    if s != [] && sep != [] {
      StartsWithOne(s, sep);
      RemovedAll(s[1..], sep);
    }
  }

  lemma {:induction false} RemovedSpaces(s: string)
    ensures forall c :: c in RemoveSpaces(s) ==> c in s && !IsSpace(c)
  {
    if s != [] {
      RemovedSpaces(s[1..]);
    }
  }

  lemma {:induction false} NothingToRemove(s: string, sep: string)
    requires forall c :: c in sep ==> c !in s
    ensures RemoveAll(s, sep) == s
    decreases |s|
  {
    if s != [] && sep != [] {
      assert sep[0] in sep && s[0] in s;
      assert !(sep <= s);
      NothingToRemove(s[1..], sep);
    }
  }

  lemma CleanedDigits(raw: string)
    ensures Digits(Cleaned(raw)) == Digits(raw)
  {
    TrimDigits(raw);
    NbspDigits(Trim(raw));
    SymbolDigits(ReplaceNbsp(Trim(raw)));
    TrimDigits(RemoveSymbols(ReplaceNbsp(Trim(raw))));
  }

  lemma MagnitudeDigits(cleaned: string, sep: string)
    requires |sep| <= 1
    ensures Digits(Magnitude(cleaned, sep)) == RemoveAll(Digits(cleaned), sep)
  {
    var s := WithoutParentheses(cleaned);
    ParenthesesDigits(cleaned);
    UnsignedDigits(s);
    SeparatorDigits(Unsigned(s), sep);
    SpaceDigits(RemoveAll(Unsigned(s), sep));
    var t := RemoveSpaces(RemoveAll(Unsigned(s), sep));
    SeparatorDigits(t, "'");
    DigitsAreDigits(t);
    NothingToRemove(Digits(t), "'");
  }

  lemma MagnitudeCharacters(cleaned: string, sep: string)
    requires |sep| <= 1
    ensures forall c :: c in Magnitude(cleaned, sep) ==> !IsSpace(c) && c != '\'' && c !in sep
  {
    var s := Unsigned(WithoutParentheses(cleaned));
    RemovedAll(s, sep);
    RemovedSpaces(RemoveAll(s, sep));
    RemovedAll(RemoveSpaces(RemoveAll(s, sep)), "'");
  }

  lemma NoSeparatorDigits(s: string, sep: string)
    requires NoDigits(sep)
    ensures RemoveAll(Digits(s), sep) == Digits(s)
  {
    DigitsAreDigits(s);
    NothingToRemove(Digits(s), sep);
  }

  /** Cleaning loses no digit but those that are the thousand separator, keeps them in order, and leaves no white space,
      no apostrophe and no thousand separator behind. */
  lemma CleaningKeepsDigits(raw: string, thousandSeparator: string)
    requires |thousandSeparator| <= 1
    ensures var cleaned := Magnitude(Cleaned(raw), thousandSeparator);
      && Digits(cleaned) == RemoveAll(Digits(raw), thousandSeparator)
      && (NoDigits(thousandSeparator) ==> Digits(cleaned) == Digits(raw))
      && forall c :: c in cleaned ==> !IsSpace(c) && c != '\'' && c !in thousandSeparator
  {
    CleanedDigits(raw);
    MagnitudeDigits(Cleaned(raw), thousandSeparator);
    MagnitudeCharacters(Cleaned(raw), thousandSeparator);
    if NoDigits(thousandSeparator) {
      NoSeparatorDigits(raw, thousandSeparator);
    }
  }

  /** The rewriting steps before the digits are read. */
  method CleanAmount(raw: string, thousandSeparator: string) returns (cleaned: string, negative: bool)
    ensures cleaned == Magnitude(Cleaned(raw), thousandSeparator) && negative == IsNegative(Cleaned(raw))
    ensures |thousandSeparator| <= 1 ==> Digits(cleaned) == RemoveAll(Digits(raw), thousandSeparator)
    ensures |thousandSeparator| <= 1 ==>
      forall c :: c in cleaned ==> !IsSpace(c) && c != '\'' && c !in thousandSeparator
  {
    if |thousandSeparator| <= 1 {
      CleaningKeepsDigits(raw, thousandSeparator);
    }
    cleaned := Trim(RemoveSymbols(ReplaceNbsp(Trim(raw))));
    negative := false;
    if InParentheses(cleaned) {
      negative := true;
      cleaned := Trim(cleaned[1..|cleaned| - 1]);
    }
    if StartsWith(cleaned, '-') {
      negative := true;
      cleaned := cleaned[1..];
    }
    if StartsWith(cleaned, '+') {
      cleaned := cleaned[1..];
    }
    cleaned := RemoveAll(cleaned, thousandSeparator);
    cleaned := RemoveSpaces(cleaned);
    cleaned := RemoveAll(cleaned, "'");
  }

  method ParseAmountToMinor(raw: string, minorUnits: nat, decimalSeparator: string, thousandSeparator: string)
    returns (result: Result<int, AmountError>)
    ensures result == ParseAmount(raw, minorUnits, decimalSeparator, thousandSeparator)
  {
    var cleaned, negative := CleanAmount(raw, thousandSeparator);
    var parts := SplitTwo(cleaned, decimalSeparator);
    var wholePart, fracPart := parts.0, parts.1;
    if !AllDigits(wholePart) || !AllDigits(fracPart) {
      return Failure(NonNumeric);
    }
    if |fracPart| > minorUnits {
      return Failure(TooManyDecimals);
    }
    var paddedFrac := PadEnd(fracPart, minorUnits);
    var digits := WholeOrZero(wholePart) + paddedFrac;
    var value: int := Value(digits);
    return Success(if negative then -value else value);
  }

  // ----- nothing is rounded -----

  lemma PaddedEndValue(whole: string, frac: string, k: nat)
    requires AllDigits(whole) && AllDigits(frac)
    ensures AllDigits(whole + (frac + Zeros(k))) && AllDigits(whole + frac)
    ensures Value(whole + (frac + Zeros(k))) == Shifted(Value(whole + frac), k)
  {
    ValueOfZeros(k);
    ValueOfConcat(whole + frac, Zeros(k));
    assert whole + (frac + Zeros(k)) == whole + frac + Zeros(k);
  }

  lemma {:induction false} ShiftedZero(k: nat)
    ensures Shifted(0, k) == 0
  {
    if k > 0 {
      ShiftedZero(k - 1);
    }
  }

  lemma LeadingZero(s: string)
    requires AllDigits(s)
    ensures AllDigits("0" + s) && Value("0" + s) == Value(s)
  {
    ValueOfConcat("0", s);
    ShiftedZero(|s|);
    assert Value("0") == 0;
  }

  lemma PaddedIs(frac: string, minorUnits: nat)
    requires |frac| <= minorUnits
    ensures PadEnd(frac, minorUnits) == frac + Zeros(minorUnits - |frac|)
  {
  }

  lemma EmptyWholeIsZero(whole: string, padded: string)
    requires AllDigits(whole) && AllDigits(padded)
    ensures AllDigits(WholeOrZero(whole) + padded) && AllDigits(whole + padded)
    ensures Value(WholeOrZero(whole) + padded) == Value(whole + padded)
  {
    if whole == [] {
      LeadingZero(padded);
      assert whole + padded == padded;
    }
  }

  /** The two parts the parser reads stand for their digits, with as many zeros behind them as they lack decimals. */
  lemma PartsParsed(whole: string, frac: string, negative: bool, minorUnits: nat)
    requires AllDigits(whole) && AllDigits(frac) && |frac| <= minorUnits
    ensures AllDigits(whole + frac)
    ensures var exact: int := Shifted(Value(whole + frac), minorUnits - |frac|);
      ParseParts(whole, frac, negative, minorUnits) == Success(if negative then -exact else exact)
  {
    var padded := frac + Zeros(minorUnits - |frac|);
    PaddedIs(frac, minorUnits);
    PaddedEndValue(whole, frac, minorUnits - |frac|);
    EmptyWholeIsZero(whole, padded);
  }

  /** What stands behind the first separator. */
  function Behind(s: string, sep: string): (r: string)
    requires sep != []
    ensures s == [] || |r| < |s|
  {
    var n := |UpTo(s, sep)| + |sep|;
    if n <= |s| then s[n..] else []
  }

  function Separators(s: string, sep: string): nat
    requires sep != []
    decreases |s|
  {
    if |UpTo(s, sep)| + |sep| <= |s| then 1 + Separators(Behind(s, sep), sep) else 0
  }

  /** What the parser never looks at: the text behind the second separator. */
  function Dropped(s: string, sep: string): string
    requires sep != []
  {
    Behind(Behind(s, sep), sep)
  }

  /** The digits written behind the first separator. */
  function Decimals(s: string, sep: string): (r: string)
    requires sep != []
    ensures AllDigits(r)
  {
    DigitsAreDigits(UpTo(Behind(s, sep), sep));
    DigitsAreDigits(Dropped(s, sep));
    Digits(UpTo(Behind(s, sep), sep)) + Digits(Dropped(s, sep))
  }

  /** The digits of the decimal number a text writes. */
  function Written(s: string, sep: string): (r: string)
    requires sep != []
    ensures AllDigits(r)
  {
    DigitsAreDigits(UpTo(s, sep));
    Digits(UpTo(s, sep)) + Decimals(s, sep)
  }

  /** So many minor units are exactly the number with these digits, the last ones of which are decimals. */
  predicate IsExactly(value: int, minorUnits: nat, digits: string, decimals: nat)
    requires AllDigits(digits)
  {
    Abs(value) * Pow10(decimals) == Value(digits) * Pow10(minorUnits)
  }

  predicate OnlyZeros(s: string) {
    forall c :: c in s ==> c == '0'
  }

  lemma {:induction false} ZeroValue(s: string)
    requires AllDigits(s)
    ensures Value(s) == 0 <==> OnlyZeros(s)
  {
    if s != [] {
      var init, last := s[..|s| - 1], s[|s| - 1];
      ZeroValue(init);
      assert s == init + [last] && last in s && (DigitValue(last) == 0 <==> last == '0');
      if OnlyZeros(s) {
        assert forall c :: c in init ==> c in s;
      } else {
        var c :| c in s && c != '0';
        assert c in init || c == last;
      }
    }
  }

  lemma {:induction false} Pow10OfSum(a: nat, b: nat)
    ensures Pow10(a + b) == Pow10(a) * Pow10(b)
  {
    if a > 0 {
      Pow10OfSum(a - 1, b);
      Regrouped(10, Pow10(a - 1), Pow10(b));
    }
  }

  lemma Regrouped(a: nat, b: nat, c: nat)
    ensures a * (b * c) == a * b * c
  {
  }

  lemma SumTimes(a: nat, b: nat, p: nat)
    requires p > 0
    ensures (a + b) * p == a * p + b * p
    ensures (a + b) * p == a * p <==> b == 0
  {
  }

  /** Digits dropped behind the decimals change the number unless they are zeros. */
  lemma DroppedChangesValue(v: nat, dropped: nat, frac: nat, more: nat, minorUnits: nat)
    requires frac <= minorUnits
    ensures Shifted(v, minorUnits - frac) * Pow10(frac + more) == (Shifted(v, more) + dropped) * Pow10(minorUnits)
       <==> dropped == 0
  {
    ShiftedIsProduct(v, minorUnits - frac);
    ShiftedIsProduct(v, more);
    Pow10OfSum(minorUnits - frac, frac + more);
    Pow10OfSum(more, minorUnits);
    Regrouped(v, Pow10(minorUnits - frac), Pow10(frac + more));
    Regrouped(v, Pow10(more), Pow10(minorUnits));
    SumTimes(Shifted(v, more), dropped, Pow10(minorUnits));
  }

  lemma PartsOfBody(body: string, sep: string)
    requires sep != []
    ensures SplitTwo(body, sep) == (UpTo(body, sep), UpTo(Behind(body, sep), sep))
    ensures Separators(body, sep) <= 1 ==> Dropped(body, sep) == []
  {
    if |UpTo(body, sep)| + |sep| <= |body| {
      assert Separators(body, sep) == 1 + Separators(Behind(body, sep), sep);
    } else {
      assert UpTo(Behind(body, sep), sep) == [];
    }
  }

  lemma MagnitudeOfParts(whole: string, frac: string, negative: bool, minorUnits: nat)
    requires AllDigits(whole) && AllDigits(frac) && |frac| <= minorUnits
    ensures AllDigits(whole + frac)
    ensures Abs(ParseParts(whole, frac, negative, minorUnits).value) == Shifted(Value(whole + frac), minorUnits - |frac|)
  {
    PartsParsed(whole, frac, negative, minorUnits);
  }

  lemma TakenTogether(a: string, b: string, c: string)
    ensures a + (b + c) == a + b + c
  {
  }

  lemma ValueWithDropped(whole: string, frac: string, dropped: string)
    requires AllDigits(whole) && AllDigits(frac) && AllDigits(dropped)
    ensures AllDigits(whole + frac) && AllDigits(whole + (frac + dropped))
    ensures Value(whole + (frac + dropped)) == Shifted(Value(whole + frac), |dropped|) + Value(dropped)
  {
    ValueOfConcat(whole + frac, dropped);
    TakenTogether(whole, frac, dropped);
  }

  lemma PartsExactly(whole: string, frac: string, dropped: string, negative: bool, minorUnits: nat)
    requires AllDigits(whole) && AllDigits(frac) && AllDigits(dropped) && |frac| <= minorUnits
    ensures AllDigits(whole + (frac + dropped))
    ensures IsExactly(ParseParts(whole, frac, negative, minorUnits).value, minorUnits, whole + (frac + dropped),
                      |frac + dropped|)
       <==> OnlyZeros(dropped)
  {
    MagnitudeOfParts(whole, frac, negative, minorUnits);
    ValueWithDropped(whole, frac, dropped);
    DroppedChangesValue(Value(whole + frac), Value(dropped), |frac|, |dropped|, minorUnits);
    ZeroValue(dropped);
  }

  /** A parsed amount is exactly the decimal number its text writes if and only if no digit but 0 stands behind a second
      decimal separator. With one separator at most nothing is lost, and no decimal more than the currency has is accepted. */
  lemma ParsedExactly(raw: string, minorUnits: nat, decimalSeparator: string, thousandSeparator: string)
    requires decimalSeparator != []
    requires ParseAmount(raw, minorUnits, decimalSeparator, thousandSeparator).Success?
    ensures var value := ParseAmount(raw, minorUnits, decimalSeparator, thousandSeparator).value;
      var body := Magnitude(Cleaned(raw), thousandSeparator);
      var exact := IsExactly(value, minorUnits, Written(body, decimalSeparator), |Decimals(body, decimalSeparator)|);
      && (exact <==> OnlyZeros(Digits(Dropped(body, decimalSeparator))))
      && (Separators(body, decimalSeparator) <= 1 ==> exact && |Decimals(body, decimalSeparator)| <= minorUnits)
      && (if IsNegative(Cleaned(raw)) then value <= 0 else value >= 0)
  {
    var body := Magnitude(Cleaned(raw), thousandSeparator);
    PartsOfBody(body, decimalSeparator);
    var whole, frac := UpTo(body, decimalSeparator), UpTo(Behind(body, decimalSeparator), decimalSeparator);
    DigitsOfDigits(whole);
    DigitsOfDigits(frac);
    DigitsAreDigits(Dropped(body, decimalSeparator));
    PartsExactly(whole, frac, Digits(Dropped(body, decimalSeparator)), IsNegative(Cleaned(raw)), minorUnits);
  }

  lemma {:induction false} UpToIsPrefix(s: string, sep: string)
    requires sep != []
    ensures var n := |UpTo(s, sep)|; s[..n] == UpTo(s, sep) && (n < |s| ==> sep <= s[n..])
    decreases |s|
  {
    if s != [] && !(sep <= s) {
      UpToIsPrefix(s[1..], sep);
      var m := |UpTo(s[1..], sep)|;
      assert s[1..][..m] == s[1..m + 1] && s[1..][m..] == s[m + 1..];
      assert s[..m + 1] == [s[0]] + s[1..m + 1];
    }
  }

  lemma AroundSeparator(s: string, sep: string)
    requires sep != []
    ensures var whole := UpTo(s, sep);
      if |whole| + |sep| <= |s| then s == whole + sep + Behind(s, sep) else s == whole && Behind(s, sep) == []
  {
    var n := |UpTo(s, sep)|;
    UpToIsPrefix(s, sep);
    if n + |sep| <= |s| {
      assert s == s[..n] + sep + s[n + |sep|..];
    }
  }

  lemma DigitsBehind(s: string, sep: string)
    requires sep != [] && NoDigits(sep)
    ensures Digits(s) == Digits(UpTo(s, sep)) + Digits(Behind(s, sep))
  {
    var a, b := UpTo(s, sep), Behind(s, sep);
    AroundSeparator(s, sep);
    if |a| + |sep| <= |s| {
      ThreePieces(s, a, sep, b);
      DigitsOfNone(sep);
    }
  }

  /** What a text writes are all its digits, when no separator is a digit. */
  lemma WrittenIsEveryDigit(raw: string, decimalSeparator: string, thousandSeparator: string)
    requires decimalSeparator != [] && NoDigits(decimalSeparator)
    requires |thousandSeparator| <= 1 && NoDigits(thousandSeparator)
    ensures Written(Magnitude(Cleaned(raw), thousandSeparator), decimalSeparator) == Digits(raw)
  {
    var body := Magnitude(Cleaned(raw), thousandSeparator);
    CleaningKeepsDigits(raw, thousandSeparator);
    DigitsBehind(body, decimalSeparator);
    DigitsBehind(Behind(body, decimalSeparator), decimalSeparator);
  }

  // ----- parsing what was printed -----

  /** The characters the printer uses. */
  predicate Printed(c: char) {
    IsDigit(c) || c == '-' || c == '.'
  }

  predicate AllPrinted(s: string) {
    forall c :: c in s ==> Printed(c)
  }

  lemma TrimKeeps(s: string)
    requires AllPrinted(s)
    ensures Trim(s) == s
  {
    if s != [] {
      assert s[0] in s && s[|s| - 1] in s;
    }
  }

  lemma NbspKeeps(s: string)
    requires AllPrinted(s)
    ensures ReplaceNbsp(s) == s
  {
    forall i | 0 <= i < |s| ensures ReplaceNbsp(s)[i] == s[i] {
      assert s[i] in s;
    }
  }

  lemma NotAWord(s: string, word: string)
    requires s != [] && Printed(s[0]) && word != [] && 'A' <= word[0] <= 'Z'
    ensures !StartsWithWord(s, word)
  {
    assert Upper(s[0]) == s[0];
  }

  lemma NoSymbol(s: string)
    requires AllPrinted(s) && s != []
    ensures SymbolLength(s) == 0
  {
    assert s[0] in s;
    NotAWord(s, "CFA");
    NotAWord(s, "FCFA");
    NotAWord(s, "XOF");
    NotAWord(s, "EUR");
    NotAWord(s, "USD");
  }

  lemma {:induction false} SymbolsKeep(s: string)
    requires AllPrinted(s)
    ensures RemoveSymbols(s) == s
    decreases |s|
  {
    if s != [] {
      NoSymbol(s);
      SymbolsKeep(s[1..]);
    }
  }

  lemma {:induction false} SeparatorsKeep(s: string, sep: string)
    requires AllPrinted(s) && (sep == [] || !Printed(sep[0]))
    ensures RemoveAll(s, sep) == s
    decreases |s|
  {
    if s != [] && sep != [] {
      assert s[0] in s;
      SeparatorsKeep(s[1..], sep);
    }
  }

  lemma {:induction false} SpacesKeep(s: string)
    requires AllPrinted(s)
    ensures RemoveSpaces(s) == s
  {
    if s != [] {
      assert s[0] in s;
      SpacesKeep(s[1..]);
    }
  }

  lemma {:induction false} UpToPoint(whole: string, rest: string)
    requires AllDigits(whole)
    ensures UpTo(whole + "." + rest, ".") == whole && UpTo(whole, ".") == whole
    decreases |whole|
  {
    var s := whole + "." + rest;
    if whole != [] {
      assert whole[0] in whole;
      assert s[0] == whole[0] && s[1..] == whole[1..] + "." + rest;
      UpToPoint(whole[1..], rest);
    } else {
      assert "." <= s;
    }
  }

  lemma SplitsAtPoint(whole: string, frac: string)
    requires AllDigits(whole) && AllDigits(frac)
    ensures SplitTwo(whole + "." + frac, ".") == (whole, frac) && SplitTwo(whole, ".") == (whole, "")
  {
    UpToPoint(whole, frac);
    UpToPoint(frac, "");
    var s := whole + "." + frac;
    assert s[|whole| + 1..] == frac;
  }

  lemma CleanedIs(s: string)
    requires AllPrinted(s)
    ensures Cleaned(s) == s
  {
    TrimKeeps(s);
    NbspKeeps(s);
    SymbolsKeep(s);
  }

  lemma NoParentheses(s: string)
    requires AllPrinted(s)
    ensures !InParentheses(s) && WithoutParentheses(s) == s
  {
    assert |s| >= 2 ==> s[0] in s;
  }

  lemma UnsignedIs(negative: bool, body: string)
    requires body != [] && IsDigit(body[0])
    ensures Unsigned(Sign(negative) + body) == body && (StartsWith(Sign(negative) + body, '-') <==> negative)
  {
    var s := Sign(negative) + body;
    assert negative ==> s[1..] == body;
    assert !negative ==> s == body;
  }

  lemma SeparatorsAndSpacesKeep(body: string, sep: string)
    requires AllPrinted(body) && (sep == [] || !Printed(sep[0]))
    ensures RemoveAll(RemoveSpaces(RemoveAll(body, sep)), "'") == body
  {
    SeparatorsKeep(body, sep);
    SpacesKeep(body);
    SeparatorsKeep(body, "'");
  }

  /** Cleaning takes only the sign off a printed amount. */
  lemma CleaningKeeps(negative: bool, body: string, sep: string)
    requires AllPrinted(body) && body != [] && IsDigit(body[0]) && (sep == [] || !Printed(sep[0]))
    ensures Magnitude(Cleaned(Sign(negative) + body), sep) == body
    ensures IsNegative(Cleaned(Sign(negative) + body)) <==> negative
  {
    CleanedIs(Sign(negative) + body);
    NoParentheses(Sign(negative) + body);
    UnsignedIs(negative, body);
    SeparatorsAndSpacesKeep(body, sep);
  }

  lemma ParseCleaned(raw: string, minorUnits: nat, sep: string, body: string, negative: bool)
    requires Magnitude(Cleaned(raw), sep) == body && (IsNegative(Cleaned(raw)) <==> negative)
    ensures var parts := SplitTwo(body, ".");
      ParseAmount(raw, minorUnits, ".", sep) == ParseParts(parts.0, parts.1, negative, minorUnits)
  {
  }

  lemma ParsePrinted(negative: bool, whole: string, frac: string, minorUnits: nat, sep: string)
    requires whole != [] && AllDigits(whole) && AllDigits(frac) && (sep == [] || !Printed(sep[0]))
    ensures ParseAmount(Sign(negative) + (whole + "." + frac), minorUnits, ".", sep)
         == ParseParts(whole, frac, negative, minorUnits)
  {
    var body := whole + "." + frac;
    assert body[0] == whole[0] && whole[0] in whole;
    CleaningKeeps(negative, body, sep);
    ParseCleaned(Sign(negative) + body, minorUnits, sep, body, negative);
    SplitsAtPoint(whole, frac);
  }

  lemma ParsePrintedWhole(negative: bool, whole: string, sep: string)
    requires whole != [] && AllDigits(whole) && (sep == [] || !Printed(sep[0]))
    ensures ParseAmount(Sign(negative) + whole, 0, ".", sep) == ParseParts(whole, "", negative, 0)
  {
    assert whole[0] in whole;
    CleaningKeeps(negative, whole, sep);
    ParseCleaned(Sign(negative) + whole, 0, sep, whole, negative);
    SplitsAtPoint(whole, "");
  }

  lemma SignedValue(whole: string, frac: string, negative: bool, minorUnits: nat)
    requires whole != [] && AllDigits(whole) && AllDigits(frac) && |frac| == minorUnits
    ensures AllDigits(whole + frac)
    ensures ParseParts(whole, frac, negative, minorUnits)
         == Success(if negative then -(Value(whole + frac) as int) else Value(whole + frac) as int)
  {
    assert PadEnd(frac, minorUnits) == frac;
  }

  /** Digits behind a second separator are lost without an error. */
  lemma SecondSeparatorLoses(raw: string, whole: string, frac: string, rest: string)
    requires whole != [] && AllDigits(whole) && AllDigits(frac) && AllDigits(rest)
    requires raw == whole + "." + (frac + "." + rest)
    ensures AllDigits(whole + frac)
    ensures ParseAmount(raw, |frac|, ".", " ") == Success(Value(whole + frac))
    ensures Written(Magnitude(Cleaned(raw), " "), ".") == whole + (frac + rest)
  {
    assert raw[0] == whole[0] && whole[0] in whole;
    CleaningKeeps(false, raw, " ");
    assert Sign(false) + raw == raw;
    ParseCleaned(raw, |frac|, " ", raw, false);
    BehindPoint(whole, frac + "." + rest);
    BehindPoint(frac, rest);
    PartsOfBody(raw, ".");
    PartsParsed(whole, frac, false, |frac|);
    DigitsOfDigits(whole);
    DigitsOfDigits(frac);
    DigitsOfDigits(rest);
  }

  lemma BehindPoint(whole: string, rest: string)
    requires AllDigits(whole)
    ensures UpTo(whole + "." + rest, ".") == whole && Behind(whole + "." + rest, ".") == rest
  {
    UpToPoint(whole, rest);
    assert (whole + "." + rest)[|whole| + 1..] == rest;
  }

  /** With two minor units "1.23.45" is read as 1.23, without an error. */
  lemma SecondSeparatorExample(raw: string)
    requires raw == "1.23.45"
    ensures ParseAmount(raw, 2, ".", " ") == Success(123)
    ensures Written(Magnitude(Cleaned(raw), " "), ".") == "12345"
  {
    var whole, frac, rest := raw[..1], raw[2..4], raw[5..];
    assert raw == whole + "." + (frac + "." + rest);
    SecondSeparatorLoses(raw, whole, frac, rest);
    ValueOfThree(whole + frac);
  }

  lemma ValueOfThree(s: string)
    requires s == "123"
    ensures AllDigits(s) && Value(s) == 123
  {
    assert Value(s[..1]) == 1 && Value(s[..2]) == 12 by {
      assert s[..2][..1] == s[..1] && s[..1][..0] == [];
    }
  }

  lemma PrintedText(amountMinor: int, minorUnits: nat)
    ensures var whole := ToDigits(WholePart(Abs(amountMinor), minorUnits));
      ToDecimalString(amountMinor, minorUnits)
      == Sign(amountMinor < 0) + if minorUnits > 0 then whole + "." + Frac(Abs(amountMinor), minorUnits) else whole
  {
    var whole := ToDigits(WholePart(Abs(amountMinor), minorUnits));
    assert "" + whole == whole;
    assert "" + (whole + "." + Frac(Abs(amountMinor), minorUnits)) == whole + "." + Frac(Abs(amountMinor), minorUnits);
  }

  lemma WholeOfWhole(abs: nat)
    ensures WholePart(abs, 0) == abs
  {
  }

  /** Every amount, printed with any number of minor units, is parsed back to itself, with the decimal separator `.` and
      a thousand separator that starts with no character the printer uses, a space for one. */
  lemma ParseAfterPrint(amountMinor: int, minorUnits: nat, thousandSeparator: string)
    requires thousandSeparator == [] || !Printed(thousandSeparator[0])
    ensures ParseAmount(ToDecimalString(amountMinor, minorUnits), minorUnits, ".", thousandSeparator) == Success(amountMinor)
  {
    PrintedText(amountMinor, minorUnits);
    if minorUnits > 0 {
      ParseFraction(amountMinor, minorUnits, thousandSeparator);
    } else {
      ParseWhole(amountMinor, thousandSeparator);
    }
  }

  lemma ParseWhole(amountMinor: int, sep: string)
    requires sep == [] || !Printed(sep[0])
    ensures ParseAmount(Sign(amountMinor < 0) + ToDigits(WholePart(Abs(amountMinor), 0)), 0, ".", sep) == Success(amountMinor)
  {
    var whole := ToDigits(Abs(amountMinor));
    WholeOfWhole(Abs(amountMinor));
    ValueOfDigits(Abs(amountMinor));
    ParsePrintedWhole(amountMinor < 0, whole, sep);
    SignedValue(whole, "", amountMinor < 0, 0);
    assert whole + "" == whole;
  }

  lemma ParseFraction(amountMinor: int, minorUnits: nat, sep: string)
    requires minorUnits > 0 && (sep == [] || !Printed(sep[0]))
    ensures var whole, frac := ToDigits(WholePart(Abs(amountMinor), minorUnits)), Frac(Abs(amountMinor), minorUnits);
      ParseAmount(Sign(amountMinor < 0) + (whole + "." + frac), minorUnits, ".", sep) == Success(amountMinor)
  {
    var whole, frac := ToDigits(WholePart(Abs(amountMinor), minorUnits)), Frac(Abs(amountMinor), minorUnits);
    PrintedParts(Abs(amountMinor), minorUnits);
    ParsePrinted(amountMinor < 0, whole, frac, minorUnits, sep);
    SignedValue(whole, frac, amountMinor < 0, minorUnits);
  }
}
