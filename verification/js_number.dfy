/**
 * JavaScript's `Number(string)` conversion (the StringToNumber operation and
 * the StringNumericLiteral grammar of section 7.1.4.1 of ECMA-262), read over
 * exact rationals: surrounding whitespace is ignored, an empty or blank string
 * is 0, and anything that is not a numeral is NaN.
 */
module JsNumber {
  import opened Wrappers
  import opened JsText

  datatype Number = NaN | Infinity(negative: bool) | Finite(value: real)

  /** Value of a hexadecimal digit character; 16 for any other character. */
  function DigitValue(c: char): (d: nat)
    ensures d <= 16
  {
    if '0' <= c <= '9' then c as int - '0' as int
    else if 'a' <= c <= 'f' then c as int - 'a' as int + 10
    else if 'A' <= c <= 'F' then c as int - 'A' as int + 10
    else 16
  }

  predicate IsDigit(c: char, base: nat) {
    DigitValue(c) < base
  }

  predicate AllDigits(s: string, base: nat) {
    forall k | 0 <= k < |s| :: IsDigit(s[k], base)
  }

  /** Value of a big-endian digit string in the given base. */
  function DigitsValue(s: string, base: nat): nat {
    if s == [] then 0 else DigitsValue(s[..|s| - 1], base) * base + DigitValue(s[|s| - 1])
  }

  function PowTen(n: nat): (p: nat)
    ensures p >= 1
  {
    if n == 0 then 1 else 10 * PowTen(n - 1)
  }

  function ScaleTen(e: int): (r: real)
    ensures r > 0.0
  {
    if e >= 0 then PowTen(e) as real else 1.0 / PowTen(-e) as real
  }

  /** Index of the first character of `s` in `marks`, or `|s|` when there is none. */
  function FindFirst(s: string, marks: set<char>): (i: nat)
    ensures i <= |s|
    ensures forall k | 0 <= k < i :: s[k] !in marks
    ensures i < |s| ==> s[i] in marks
  {
    if s == [] then 0
    else if s[0] in marks then 0
    else 1 + FindFirst(s[1..], marks)
  }

  function Negate(n: Number): Number {
    match n
    case NaN => NaN
    case Infinity(neg) => Infinity(!neg)
    case Finite(v) => Finite(-v)
  }

  /** SignedInteger of an ExponentPart: an optional sign, then decimal digits. */
  function ExponentValue(x: string): Option<int> {
    var sign := if x != [] && (x[0] == '+' || x[0] == '-') then x[..1] else "";
    var digits := x[|sign|..];
    if digits == [] || !AllDigits(digits, 10) then None
    else
      var magnitude: int := DigitsValue(digits, 10);
      Some(if sign == "-" then -magnitude else magnitude)
  }

  /** StrUnsignedDecimalLiteral: `Infinity`, or a mantissa with an optional
      exponent part. */
  function UnsignedDecimal(u: string): Number {
    if u == "Infinity" then Infinity(false)
    else
      var e := FindFirst(u, {'e', 'E'});
      var exponent := if e < |u| then ExponentValue(u[e + 1..]) else Some(0);
      match (MantissaValue(u[..e]), exponent)
      case (Some(m), Some(x)) => Finite(m * ScaleTen(x))
      case _ => NaN
  }

  /** Digits with an optional fraction, where at least one of the integer and
      fraction parts has a digit. */
  function MantissaValue(m: string): Option<real> {
    var dot := FindFirst(m, {'.'});
    var whole := m[..dot];
    var fraction := if dot < |m| then m[dot + 1..] else "";
    if !AllDigits(whole, 10) || !AllDigits(fraction, 10) || (whole == [] && fraction == [])
    then None
    else Some(DigitsValue(whole, 10) as real + DigitsValue(fraction, 10) as real / PowTen(|fraction|) as real)
  }

  /** NonDecimalIntegerLiteral body: a non-empty run of digits of the base. */
  function RadixInteger(digits: string, base: nat): Number {
    if AllDigits(digits, base) then Finite(DigitsValue(digits, base) as real) else NaN
  }

  predicate HasRadixPrefix(t: string, lower: char, upper: char) {
    |t| > 2 && t[0] == '0' && (t[1] == lower || t[1] == upper)
  }

  /** `Number(s)` for a string `s`: a blank string is 0, and any other string
      denotes what its non-empty trimmed text denotes as a numeral. */
  function StringToNumber(s: string): (n: Number)
    ensures AllWhitespace(s) ==> n == Finite(0.0)
    ensures !AllWhitespace(s) ==> Trim(s) != [] && n == NumeralValue(Trim(s))
  {
    NumeralValue(Trim(s))
  }

  /** The number a trimmed string denotes. */
  function NumeralValue(t: string): Number {
    if t == [] then Finite(0.0)
    else if HasRadixPrefix(t, 'x', 'X') then RadixInteger(t[2..], 16)
    else if HasRadixPrefix(t, 'o', 'O') then RadixInteger(t[2..], 8)
    else if HasRadixPrefix(t, 'b', 'B') then RadixInteger(t[2..], 2)
    else if t[0] == '+' then UnsignedDecimal(t[1..])
    else if t[0] == '-' then Negate(UnsignedDecimal(t[1..]))
    else UnsignedDecimal(t)
  }

  /** Whitespace around a string never changes the number it denotes. */
  lemma NumberIgnoresPadding(w1: string, s: string, w2: string)
    requires AllWhitespace(w1) && AllWhitespace(w2)
    ensures StringToNumber(w1 + s + w2) == StringToNumber(s)
  {
    TrimPadded(w1, s, w2);
  }

  /** A blank string denotes zero. */
  lemma BlankIsZero(s: string)
    requires AllWhitespace(s)
    ensures StringToNumber(s) == Finite(0.0)
  {
  }

  /** Canonical decimal rendering of a natural number (no sign, no leading zeros). */
  function DecimalString(n: nat): (s: string)
    ensures s != []
  {
    var d := ['0' + (n % 10) as char];
    if n < 10 then d else DecimalString(n / 10) + d
  }

  /** The decimal rendering consists of digits whose value is `n`. */
  lemma {:induction false} DecimalDigitsValue(n: nat)
    ensures AllDigits(DecimalString(n), 10)
    ensures DigitsValue(DecimalString(n), 10) == n
    decreases n
  {
    var s := DecimalString(n);
    var d := '0' + (n % 10) as char;
    assert DigitValue(d) == n % 10;
    if n >= 10 {
      DecimalDigitsValue(n / 10);
      assert s == DecimalString(n / 10) + [d];
      assert s[..|s| - 1] == DecimalString(n / 10);
    }
  }

  /** Round trip: `Number` reads back every natural number from its decimal
      rendering. */
  lemma DecimalRoundTrip(n: nat)
    ensures StringToNumber(DecimalString(n)) == Finite(n as real)
  {
    var s := DecimalString(n);
    DecimalDigitsValue(n);
    DigitIsNotWhitespace(s[0]);
    DigitIsNotWhitespace(s[|s| - 1]);
    TrimOfTrimmed(s);
    DigitsAreNumeral(s);
  }

  lemma DigitIsNotWhitespace(c: char)
    requires IsDigit(c, 10)
    ensures !IsWhitespace(c)
  {
  }

  /** A non-empty run of decimal digits denotes its digit value. */
  lemma DigitsAreNumeral(s: string)
    requires s != [] && AllDigits(s, 10)
    ensures NumeralValue(s) == Finite(DigitsValue(s, 10) as real)
  {
    assert IsDigit(s[0], 10);
    assert |s| > 1 ==> IsDigit(s[1], 10);
    assert !HasRadixPrefix(s, 'x', 'X') && !HasRadixPrefix(s, 'o', 'O') && !HasRadixPrefix(s, 'b', 'B');
    assert s[0] != '+' && s[0] != '-';
    DigitsAreUnsignedDecimal(s);
  }

  /** A non-empty run of decimal digits is an unsigned decimal literal
      denoting its digit value. */
  lemma DigitsAreUnsignedDecimal(s: string)
    requires s != [] && AllDigits(s, 10)
    ensures UnsignedDecimal(s) == Finite(DigitsValue(s, 10) as real)
  {
    assert s != "Infinity" by { assert IsDigit(s[0], 10); }
    assert FindFirst(s, {'e', 'E'}) == |s|;
    assert s[..|s|] == s;
    DigitsAreMantissa(s);
  }

  lemma DigitsAreMantissa(s: string)
    requires s != [] && AllDigits(s, 10)
    ensures MantissaValue(s) == Some(DigitsValue(s, 10) as real)
  {
    assert FindFirst(s, {'.'}) == |s| by {
      var e := FindFirst(s, {'.'});
      if e < |s| { assert IsDigit(s[e], 10); }
    }
    assert s[..|s|] == s;
  }

  /** A hexadecimal literal denotes its integer value. */
  lemma HexExample()
    ensures StringToNumber("0x3") == Finite(3.0)
  {
    TrimOfTrimmed("0x3");
    assert HasRadixPrefix("0x3", 'x', 'X');
    assert "0x3"[2..] == "3";
    assert DigitsValue("3", 16) == 3;
  }

  /** A string whose first character is anything but whitespace, a digit, a
      sign, a point or the `I` of `Infinity` is not a numeral, whatever
      follows it. */
  lemma NonNumeralStart(s: string)
    requires s != [] && !IsWhitespace(s[0])
    requires !IsDigit(s[0], 10) && s[0] !in {'+', '-', '.', 'I'}
    ensures StringToNumber(s) == NaN
  {
    var t := Trim(s);
    assert TrimStart(s) == s;
    assert t != [] && t[0] == s[0];
    NonNumeralText(t);
  }

  lemma NonNumeralText(t: string)
    requires t != [] && !IsDigit(t[0], 10) && t[0] !in {'+', '-', '.', 'I'}
    ensures NumeralValue(t) == NaN
  {
    assert t != "Infinity";
    var e := FindFirst(t, {'e', 'E'});
    var mantissa := t[..e];
    if e > 0 {
      assert mantissa[0] == t[0];
      var dot := FindFirst(mantissa, {'.'});
      assert dot > 0;
      assert mantissa[..dot][0] == t[0];
    }
    assert MantissaValue(mantissa).None?;
  }
}
