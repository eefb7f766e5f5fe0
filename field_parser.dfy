/**
 * `parseNumber` of the configuration form (App.jsx): one text field turned
 * into a number, or the first of its checks that fails.
 */
module FieldParser {
  import opened Wrappers
  import opened JsText
  import opened JsNumber

  /** The `options` argument: `{ integer, min, max }`, each possibly absent. */
  datatype NumberOptions = NumberOptions(integer: bool, min: Option<real>, max: Option<real>)

  /** The reasons `parseNumber` throws, in the order it checks them. */
  datatype FieldFault = Empty | NotANumber | NotAnInteger | BelowMin(min: real) | AboveMax(max: real)

  /** A thrown error: the field's label and the reason. The message wording is not modelled. */
  datatype FieldError = FieldError(field: string, fault: FieldFault)

  /** `Number.isInteger` on a finite value. */
  predicate IsInteger(x: real) {
    x.Floor as real == x
  }

  /** `x` meets every constraint that `options` requests. */
  predicate Satisfies(x: real, options: NumberOptions) {
    && (options.integer ==> IsInteger(x))
    && (options.min.Some? ==> options.min.value <= x)
    && (options.max.Some? ==> x <= options.max.value)
  }

  /** The text that is handed to `Number`: the first comma made a dot, then trimmed. */
  function Normalize(value: string): (r: string)
    ensures |r| <= |value|
    ensures r == [] <==> AllWhitespace(ReplaceFirstComma(value))
    ensures r != [] ==> !IsWhitespace(r[0]) && !IsWhitespace(r[|r| - 1])
  {
    Trim(ReplaceFirstComma(value))
  }

  function ParseNumber(value: string, fieldName: string, options: NumberOptions): (r: Result<real, FieldError>)
    // an error names the field, and a returned value meets every requested constraint
    ensures r.Err? ==> r.error.field == fieldName
    ensures r.Ok? ==> Satisfies(r.value, options)
  {
    var normalized := Normalize(value);
    if normalized == [] then Err(FieldError(fieldName, Empty))
    else
      match ToNumber(normalized)
      case None => Err(FieldError(fieldName, NotANumber))
      case Some(num) =>
        if options.integer && !IsInteger(num) then Err(FieldError(fieldName, NotAnInteger))
        else if options.min.Some? && num < options.min.value then Err(FieldError(fieldName, BelowMin(options.min.value)))
        else if options.max.Some? && num > options.max.value then Err(FieldError(fieldName, AboveMax(options.max.value)))
        else Ok(num)
  }

  /** A value is returned exactly when the normalized text is a number meeting every requested constraint,
      and otherwise the checks run in a fixed order and the first one that fails is reported. */
  lemma {:induction false} ParseNumberChecks(value: string, fieldName: string, options: NumberOptions)
    ensures ParseNumber(value, fieldName, options).Ok? <==>
              && Normalize(value) != []
              && ToNumber(Normalize(value)).Some?
              && Satisfies(ToNumber(Normalize(value)).value, options)
    ensures ParseNumber(value, fieldName, options).Ok? ==>
              Some(ParseNumber(value, fieldName, options).value) == ToNumber(Normalize(value))
    ensures ParseNumber(value, fieldName, options) == Err(FieldError(fieldName, Empty)) <==> Normalize(value) == []
    ensures ParseNumber(value, fieldName, options) == Err(FieldError(fieldName, NotANumber)) <==>
              Normalize(value) != [] && ToNumber(Normalize(value)).None?
    ensures ParseNumber(value, fieldName, options) == Err(FieldError(fieldName, NotAnInteger)) <==>
              && Normalize(value) != []
              && ToNumber(Normalize(value)).Some?
              && options.integer && !IsInteger(ToNumber(Normalize(value)).value)
    ensures ParseNumber(value, fieldName, options).Err? && ParseNumber(value, fieldName, options).error.fault.BelowMin? ==>
              && Normalize(value) != []
              && ToNumber(Normalize(value)).Some?
              && (options.integer ==> IsInteger(ToNumber(Normalize(value)).value))
              && options.min == Some(ParseNumber(value, fieldName, options).error.fault.min)
              && ToNumber(Normalize(value)).value < options.min.value
    ensures ParseNumber(value, fieldName, options).Err? && ParseNumber(value, fieldName, options).error.fault.AboveMax? ==>
              && Normalize(value) != []
              && ToNumber(Normalize(value)).Some?
              && (options.integer ==> IsInteger(ToNumber(Normalize(value)).value))
              && (options.min.Some? ==> options.min.value <= ToNumber(Normalize(value)).value)
              && options.max == Some(ParseNumber(value, fieldName, options).error.fault.max)
              && ToNumber(Normalize(value)).value > options.max.value
  {
  }

  /** A decimal comma is accepted: "0,8" reads as 0.8. */
  lemma {:induction false} DecimalCommaAccepted()
    ensures ParseNumber("0,8", "Crossover rate", NumberOptions(false, Some(0.0), Some(1.0))) == Ok(0.8)
  {
    NormalizeDecimalComma();
    ReadPointEight();
  }

  lemma {:induction false} NormalizeDecimalComma()
    ensures Normalize("0,8") == "0.8"
  {
    CommaBecomesPoint();
    TrimKeepsUnpadded("0.8");
  }

  lemma {:induction false} CommaBecomesPoint()
    ensures ReplaceFirstComma("0,8") == "0.8"
  {
    var whole, frac := "0", "8";
    assert "0,8" == whole + [','] + frac;
    ReplaceFirstCommaAt(whole, frac);
    assert whole + ['.'] + frac == "0.8";
  }

  lemma {:induction false} ReadPointEight()
    ensures ToNumber("0.8") == Some(0.8)
  {
    PointedDigits('0', '8');
    assert ['0'] + "." + ['8'] == "0.8";
  }

  /** Only the first comma becomes a point, so a value with two separators, such as "1,0,0", is read as
      "1.0,0" and rejected as not a number. */
  lemma {:induction false} SecondCommaNotANumber(whole: string, frac: string, tail: string, fieldName: string, options: NumberOptions)
    requires whole != [] && AllDigits(whole) && AllDigits(frac) && AllDigits(tail)
    ensures Normalize(whole + "," + frac + "," + tail) == whole + "." + frac + "," + tail
    ensures ParseNumber(whole + "," + frac + "," + tail, fieldName, options) == Err(FieldError(fieldName, NotANumber))
  {
    NormalizeTwoCommas(whole, frac, tail);
    CommaAfterFractionIsNaN(whole, frac, tail);
  }

  lemma {:induction false} NormalizeTwoCommas(whole: string, frac: string, tail: string)
    requires whole != [] && AllDigits(whole) && AllDigits(frac) && AllDigits(tail)
    ensures Normalize(whole + "," + frac + "," + tail) == whole + "." + frac + "," + tail
  {
    ReplaceCommaOfTwo(whole, frac, tail);
    var t := whole + "." + frac + "," + tail;
    assert t[0] == whole[0];
    assert t[|t| - 1] == if tail == [] then ',' else tail[|tail| - 1];
    TrimKeepsUnpadded(t);
  }

  lemma {:induction false} ReplaceCommaOfTwo(whole: string, frac: string, tail: string)
    requires AllDigits(whole)
    ensures ReplaceFirstComma(whole + "," + frac + "," + tail) == whole + "." + frac + "," + tail
  {
    var rest := frac + "," + tail;
    assert whole + "," + frac + "," + tail == whole + [','] + rest;
    assert ',' !in whole by {
      forall i | 0 <= i < |whole| ensures whole[i] != ',' { assert IsDigit(whole[i]); }
    }
    ReplaceFirstCommaAt(whole, rest);
    assert whole + ['.'] + rest == whole + "." + frac + "," + tail;
  }

  /** "1.5" exceeds the upper bound of a rate. */
  lemma {:induction false} RateAboveOneRejected()
    ensures ParseNumber("1.5", "Crossover rate", NumberOptions(false, Some(0.0), Some(1.0)))
              == Err(FieldError("Crossover rate", AboveMax(1.0)))
  {
    NormalizePlain("1.5");
    ReadOnePointFive();
  }

  /** "-0,5" in a rate field: the comma becomes a point, `Number` reads -0.5, and the field is rejected
      as below the minimum 0. */
  lemma {:induction false} NegativeRateRejected()
    ensures ParseNumber("-0,5", "Mutation rate", NumberOptions(false, Some(0.0), Some(1.0)))
              == Err(FieldError("Mutation rate", BelowMin(0.0)))
  {
    NormalizeNegativeComma();
    ReadMinusPointFive();
  }

  lemma {:induction false} NormalizeNegativeComma()
    ensures Normalize("-0,5") == "-0.5"
  {
    var whole, frac := "-0", "5";
    assert "-0,5" == whole + [','] + frac;
    ReplaceFirstCommaAt(whole, frac);
    assert whole + ['.'] + frac == "-0.5";
    TrimKeepsUnpadded("-0.5");
  }

  lemma {:induction false} ReadMinusPointFive()
    ensures ToNumber("-0.5") == Some(-0.5)
  {
    var whole, frac := "0", "5";
    assert AllDigits(whole) && AllDigits(frac);
    NumberOfNegatedPointed(whole, frac);
    NaturalOfDigit('0');
    FractionOfDigit('5');
    assert "-" + (whole + "." + frac) == "-0.5";
  }

  lemma {:induction false} ReadOnePointFive()
    ensures ToNumber("1.5") == Some(1.5)
  {
    PointedDigits('1', '5');
    assert ['1'] + "." + ['5'] == "1.5";
  }

  /** A digit, a point and a digit. */
  lemma {:induction false} PointedDigits(a: char, b: char)
    requires IsDigit(a) && IsDigit(b)
    ensures ToNumber([a] + "." + [b]) == Some(DigitValue(a) as real + DigitValue(b) as real / 10.0)
  {
    var whole, frac := [a], [b];
    assert AllDigits(whole) && AllDigits(frac);
    NumberOfPointed(whole, frac);
    NaturalOfDigit(a);
    FractionOfDigit(b);
  }

  /** A text without a comma or surrounding white space is handed to `Number` as it is. */
  lemma {:induction false} NormalizePlain(s: string)
    requires ',' !in s
    requires s != [] ==> !IsWhitespace(s[0]) && !IsWhitespace(s[|s| - 1])
    ensures Normalize(s) == s
  {
    assert FirstWhere(s, IsComma) == |s|;
    TrimKeepsUnpadded(s);
  }
}
