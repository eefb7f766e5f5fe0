/**
 * JavaScript's `Number(string)` conversion, restricted to decimal literals.
 * A result of `None` stands for `NaN`. Values are exact reals: the
 * rounding to a 64-bit float is not modelled.
 */
module JsNumber {
  import opened Wrappers
  import opened JsText

  predicate IsDigit(c: char) {
    '0' <= c <= '9'
  }

  predicate AllDigits(s: string) {
    forall i :: 0 <= i < |s| ==> IsDigit(s[i])
  }

  function DigitValue(c: char): nat
    requires IsDigit(c)
  {
    c as int - '0' as int
  }

  /** The value of a run of decimal digits, most significant first. */
  function Natural(ds: string): nat
    requires AllDigits(ds)
  {
    if ds == [] then 0 else 10 * Natural(ds[..|ds| - 1]) + DigitValue(ds[|ds| - 1])
  }

  /** The value of the digits written after a decimal point. */
  function Fraction(ds: string): (r: real)
    requires AllDigits(ds)
    ensures 0.0 <= r < 1.0
  {
    if ds == [] then 0.0 else (DigitValue(ds[0]) as real + Fraction(ds[1..])) / 10.0
  }

  function Pow10(e: int): (r: real)
    ensures r > 0.0
    decreases if e < 0 then -e else e
  {
    if e == 0 then 1.0
    else if e > 0 then 10.0 * Pow10(e - 1)
    else Pow10(e + 1) / 10.0
  }

  /** An exponent part: nothing at all, or `e`/`E`, an optional sign and at least one digit. */
  function Exponent(s: string): Option<int>
  {
    if s == [] then Some(0)
    else if s[0] != 'e' && s[0] != 'E' then None
    else
      var t := s[1..];
      var signed := t != [] && (t[0] == '+' || t[0] == '-');
      var ds := if signed then t[1..] else t;
      if ds == [] || !AllDigits(ds) then None
      else if signed && t[0] == '-' then Some(-(Natural(ds) as int))
      else Some(Natural(ds))
  }

  /** A mantissa scaled by the exponent part that follows it, if that part is well formed. */
  function Scaled(mantissa: real, tail: string): Option<real>
  {
    match Exponent(tail)
    case None => None
    case Some(e) => Some(mantissa * Pow10(e))
  }

  /** What follows the point of a literal whose whole part is `whole`: fraction digits, then an exponent part. */
  function AfterPoint(whole: string, rest: string): Option<real>
    requires AllDigits(whole)
  {
    var b := SpanWhere(rest, IsDigit);
    SpanWhereHolds(rest, IsDigit);
    if whole == [] && b == 0 then None
    else Scaled(Natural(whole) as real + Fraction(rest[..b]), rest[b..])
  }

  /** An unsigned decimal literal: digits, an optional point with digits, an optional exponent part;
      at least one digit before or after the point. */
  function UnsignedDecimal(s: string): Option<real>
  {
    var a := SpanWhere(s, IsDigit);
    SpanWhereHolds(s, IsDigit);
    if a < |s| && s[a] == '.' then AfterPoint(s[..a], s[a + 1..])
    else if a == 0 then None
    else Scaled(Natural(s[..a]) as real, s[a..])
  }

  /** The value of a literal after a minus sign; `NaN` stays `NaN`. */
  function Negated(r: Option<real>): Option<real> {
    match r
    case None => None
    case Some(x) => Some(-x)
  }

  /** A decimal literal with an optional leading sign. */
  function DecimalLiteral(s: string): Option<real>
  {
    if s != [] && s[0] == '-' then Negated(UnsignedDecimal(s[1..]))
    else if s != [] && s[0] == '+' then UnsignedDecimal(s[1..])
    else UnsignedDecimal(s)
  }

  /** `Number(s)`: surrounding white space is ignored and an empty or blank text is 0. */
  function ToNumber(s: string): (r: Option<real>)
    ensures AllWhitespace(s) ==> r == Some(0.0)
  {
    var t := Trim(s);
    if t == [] then Some(0.0) else DecimalLiteral(t)
  }

  /** Padding never changes what `Number` reads: the trimmed text gives the same value. */
  lemma {:induction false} NumberOfTrimmed(s: string)
    ensures ToNumber(Trim(s)) == ToNumber(s)
  {
    TrimKeepsUnpadded(Trim(s));
  }

  function DigitChar(d: nat): (c: char)
    requires d < 10
    ensures IsDigit(c) && DigitValue(c) == d
  {
    ('0' as int + d) as char
  }

  /** The shortest decimal text of a natural number. */
  function Decimal(n: nat): (s: string)
    ensures s != [] && AllDigits(s)
  {
    if n < 10 then [DigitChar(n)] else Decimal(n / 10) + [DigitChar(n % 10)]
  }

  lemma {:induction false} NaturalOfDecimal(n: nat)
    ensures Natural(Decimal(n)) == n
  {
    if n >= 10 {
      var s := Decimal(n);
      assert s[..|s| - 1] == Decimal(n / 10);
      NaturalOfDecimal(n / 10);
    }
  }

  lemma {:induction false} NaturalOfDigit(a: char)
    requires IsDigit(a)
    ensures Natural([a]) == DigitValue(a)
  {
    assert [a][..0] == [];
  }

  lemma {:induction false} FractionOfDigit(b: char)
    requires IsDigit(b)
    ensures Fraction([b]) == DigitValue(b) as real / 10.0
  {
    assert [b][1..] == [];
  }

  lemma {:induction false} SpanOfDigits(s: string)
    requires AllDigits(s)
    ensures SpanWhere(s, IsDigit) == |s|
  {
    SpanWhereStops(s, [], IsDigit);
    assert s + [] == s;
  }

  /** A text of digits, a point and digits reads as the whole part plus the fraction. */
  lemma {:induction false} AfterPointOfDigits(whole: string, frac: string)
    requires AllDigits(whole) && AllDigits(frac) && frac != []
    ensures AfterPoint(whole, frac) == Scaled(Natural(whole) as real + Fraction(frac), [])
  {
    var b := SpanWhere(frac, IsDigit);
    SpanOfDigits(frac);
    assert frac[..b] == frac;
    assert frac[b..] == [];
  }

  lemma {:induction false} NumberOfPointed(whole: string, frac: string)
    requires whole != [] && frac != [] && AllDigits(whole) && AllDigits(frac)
    ensures ToNumber(whole + "." + frac) == Some(Natural(whole) as real + Fraction(frac))
  {
    var s := whole + "." + frac;
    assert s[0] == whole[0] && s[|s| - 1] == frac[|frac| - 1];
    DigitIsNotWhitespace(s[|s| - 1]);
    PlainLiteral(s);
    PointedValue(whole, frac);
  }

  /** The value of digits, a point and digits, read by the unsigned grammar. */
  lemma {:induction false} PointedValue(whole: string, frac: string)
    requires whole != [] && frac != [] && AllDigits(whole) && AllDigits(frac)
    ensures UnsignedDecimal(whole + "." + frac) == Some(Natural(whole) as real + Fraction(frac))
  {
    PointedSplit(whole, frac);
    AfterPointOfDigits(whole, frac);
    NoExponent(Natural(whole) as real + Fraction(frac));
  }

  lemma {:induction false} NoExponent(mantissa: real)
    ensures Scaled(mantissa, []) == Some(mantissa)
  {
    assert Exponent([]) == Some(0);
    assert Pow10(0) == 1.0;
  }

  lemma {:induction false} DigitIsNotWhitespace(c: char)
    requires IsDigit(c)
    ensures !IsWhitespace(c)
  {
  }

  /** A text that starts with a digit and does not end with white space is read by the unsigned
      grammar, untrimmed. */
  lemma {:induction false} PlainLiteral(s: string)
    requires s != [] && IsDigit(s[0]) && !IsWhitespace(s[|s| - 1])
    ensures ToNumber(s) == UnsignedDecimal(s)
  {
    TrimKeepsUnpadded(s);
  }

  lemma {:induction false} PointedSplit(whole: string, frac: string)
    requires whole != [] && AllDigits(whole)
    ensures UnsignedDecimal(whole + "." + frac) == AfterPoint(whole, frac)
  {
    var s := whole + "." + frac;
    assert s == whole + ("." + frac);
    SpanWhereStops(whole, "." + frac, IsDigit);
    assert s[..|whole|] == whole && s[|whole|] == '.' && s[|whole| + 1..] == frac;
  }

  /** `Number` reads back the decimal text of every natural number. */
  lemma {:induction false} NumberOfDecimal(n: nat)
    ensures ToNumber(Decimal(n)) == Some(n as real)
  {
    var s := Decimal(n);
    DigitIsNotWhitespace(s[|s| - 1]);
    PlainLiteral(s);
    UnsignedOfDecimal(n);
  }

  lemma {:induction false} UnsignedOfDecimal(n: nat)
    ensures UnsignedDecimal(Decimal(n)) == Some(n as real)
  {
    var s := Decimal(n);
    SpanOfDigits(s);
    assert s[..|s|] == s;
    NaturalOfDecimal(n);
    assert s[|s|..] == [];
    assert UnsignedDecimal(s) == Scaled(n as real, []);
  }

  /** An unpadded text that starts with a minus sign: the value the unsigned grammar reads after the
      sign, negated; a text the grammar cannot read stays `NaN`. */
  lemma {:induction false} MinusLiteral(t: string)
    requires t != [] && t[0] == '-' && Trim(t) == t
    ensures ToNumber(t) == Negated(UnsignedDecimal(t[1..]))
  {
  }

  /** An unpadded text that starts with a plus sign: the sign changes nothing. */
  lemma {:induction false} PlusLiteral(t: string)
    requires t != [] && t[0] == '+' && Trim(t) == t
    ensures ToNumber(t) == UnsignedDecimal(t[1..])
  {
  }

  /** A sign before a text that ends in a digit leaves the text unpadded. */
  lemma {:induction false} SignedIsUnpadded(sign: char, s: string)
    requires sign == '-' || sign == '+'
    requires s != [] && IsDigit(s[|s| - 1])
    ensures Trim([sign] + s) == [sign] + s && ([sign] + s)[1..] == s
  {
    var t := [sign] + s;
    assert t[|t| - 1] == s[|s| - 1];
    DigitIsNotWhitespace(s[|s| - 1]);
    TrimKeepsUnpadded(t);
  }

  /** `Number` reads a minus sign before the decimal text of a natural number as its negation. */
  lemma {:induction false} NumberOfNegated(n: nat)
    ensures ToNumber("-" + Decimal(n)) == Some(-(n as real))
  {
    var s := Decimal(n);
    UnsignedOfDecimal(n);
    SignedIsUnpadded('-', s);
    MinusLiteral("-" + s);
  }

  /** A plus sign before the decimal text of a natural number changes nothing. */
  lemma {:induction false} NumberOfPlusSigned(n: nat)
    ensures ToNumber("+" + Decimal(n)) == Some(n as real)
  {
    var s := Decimal(n);
    UnsignedOfDecimal(n);
    SignedIsUnpadded('+', s);
    PlusLiteral("+" + s);
  }

  /** `-` before digits, a point and digits is the negated whole part plus fraction. */
  lemma {:induction false} NumberOfNegatedPointed(whole: string, frac: string)
    requires whole != [] && frac != [] && AllDigits(whole) && AllDigits(frac)
    ensures ToNumber("-" + (whole + "." + frac)) == Some(-(Natural(whole) as real + Fraction(frac)))
  {
    var body := whole + "." + frac;
    assert body[|body| - 1] == frac[|frac| - 1];
    PointedValue(whole, frac);
    SignedIsUnpadded('-', body);
    MinusLiteral("-" + body);
  }

  /** A minus sign before digits adds no separator and no line feed. */
  lemma {:induction false} SignedHasNoSeparator(s: string)
    requires AllDigits(s)
    ensures NoSeparator("-" + s)
    ensures forall i :: 0 <= i < |"-" + s| ==> !IsNewline(("-" + s)[i])
  {
    DigitsHaveNoSeparator(s);
    assert forall i :: 1 <= i < |"-" + s| ==> ("-" + s)[i] == s[i - 1];
  }


  /** A comma after the fraction digits is not part of any literal: such a text is `NaN`. */
  lemma {:induction false} CommaAfterFractionIsNaN(whole: string, frac: string, tail: string)
    requires whole != [] && AllDigits(whole) && AllDigits(frac) && AllDigits(tail)
    ensures ToNumber(whole + "." + frac + "," + tail) == None
  {
    var s := whole + "." + frac + "," + tail;
    var rest := frac + "," + tail;
    assert s == whole + "." + rest;
    assert s[0] == whole[0];
    assert s[|s| - 1] == if tail == [] then ',' else tail[|tail| - 1];
    PlainLiteral(s);
    PointedSplit(whole, rest);
    CommaEndsFraction(whole, frac, tail);
  }

  lemma {:induction false} CommaEndsFraction(whole: string, frac: string, tail: string)
    requires AllDigits(whole) && AllDigits(frac)
    ensures AfterPoint(whole, frac + "," + tail) == None
  {
    var rest := frac + "," + tail;
    assert rest == frac + ("," + tail);
    SpanWhereStops(frac, "," + tail, IsDigit);
    assert rest[SpanWhere(rest, IsDigit)..] == "," + tail;
  }

  /** Digits are neither white space nor commas. */
  lemma {:induction false} DigitsHaveNoSeparator(s: string)
    requires AllDigits(s)
    ensures NoSeparator(s)
    ensures forall i :: 0 <= i < |s| ==> !IsNewline(s[i])
  {
    forall j | 0 <= j < |s|
      ensures !IsSeparator(s[j]) && !IsNewline(s[j])
    {
      DigitIsNotWhitespace(s[j]);
    }
  }
}
