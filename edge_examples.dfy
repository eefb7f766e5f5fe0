/**
 * Worked cases of `parseEdgesForBackend`: accepted texts in both numberings,
 * a vertex out of range and a line with too few numbers.
 */
module EdgeExamples {
  import opened Wrappers
  import opened JsText
  import opened JsNumber
  import opened Indexing
  import opened EdgeParser

  /** Two content lines separated by a line feed are those two lines. */
  lemma {:induction false} TwoContentLines(first: string, second: string)
    requires IsContentLine(first) && forall i :: 0 <= i < |first| ==> !IsNewline(first[i])
    requires IsContentLine(second) && forall i :: 0 <= i < |second| ==> !IsNewline(second[i])
    ensures NonEmptyLines(first + "\n" + second) == [first, second]
  {
    SplitLinesAppend(first, second);
    SplitLinesOfLine(first);
    SplitLinesOfLine(second);
    assert [first] + [second] == [first, second];
    TrimmedLinesAppend([first], [second]);
    SingleContentLine(first);
    SingleContentLine(second);
  }

  /** Two accepted lines give their two edges, in order. */
  lemma {:induction false} CollectTwo(first: Edge, second: Edge)
    ensures Collect([Ok(first), Ok(second)]) == Ok([first, second])
  {
    var verdicts: seq<Result<Edge, LineFault>> := [Ok(first), Ok(second)];
    CollectOne(Ok(first));
    assert verdicts[..1] == [Ok(first)];
    assert [first] + [second] == [first, second];
  }

  /** A text of two content lines is judged line by line. */
  lemma {:induction false} TwoLineText(first: string, second: string, vCount: int, mode: Mode)
    requires IsContentLine(first) && forall i :: 0 <= i < |first| ==> !IsNewline(first[i])
    requires IsContentLine(second) && forall i :: 0 <= i < |second| ==> !IsNewline(second[i])
    ensures ParseEdges(first + "\n" + second, vCount, mode)
              == Collect([ParseLine(first, vCount, mode), ParseLine(second, vCount, mode)])
  {
    TwoContentLines(first, second);
    var lines := [first, second];
    VerdictAt(lines, 0, vCount, mode);
    VerdictAt(lines, 1, vCount, mode);
    assert Verdicts(lines, vCount, mode) == [ParseLine(first, vCount, mode), ParseLine(second, vCount, mode)];
  }

  /** "0 1 2" and "0 2 3" on two lines, three vertices, zero-based: both edges, as typed. */
  lemma {:induction false} TwoLinesZeroBased()
    ensures ParseEdges("0 1 2" + "\n" + "0 2 3", 3, Zero) == Ok([Edge(0.0, 1.0, 2.0), Edge(0.0, 2.0, 3.0)])
  {
    var first, second := DecimalLine(0, 1, 2), DecimalLine(0, 2, 3);
    assert first == "0 1 2" && second == "0 2 3";
    DecimalLineIsContent(0, 1, 2);
    DecimalLineIsContent(0, 2, 3);
    TwoLineText(first, second, 3, Zero);
    FirstLineStored();
    SecondLineStored();
    CollectTwo(Edge(0.0, 1.0, 2.0), Edge(0.0, 2.0, 3.0));
  }

  lemma {:induction false} FirstLineStored()
    ensures ParseLine(DecimalLine(0, 1, 2), 3, Zero) == Ok(Edge(0.0, 1.0, 2.0))
  {
    DecimalLineVerdict(0, 1, 2, 3, Zero);
    assert InDisplayRange(0 as real, 3, Zero) && InDisplayRange(1 as real, 3, Zero);
  }

  lemma {:induction false} SecondLineStored()
    ensures ParseLine(DecimalLine(0, 2, 3), 3, Zero) == Ok(Edge(0.0, 2.0, 3.0))
  {
    DecimalLineVerdict(0, 2, 3, 3, Zero);
    assert InDisplayRange(0 as real, 3, Zero) && InDisplayRange(2 as real, 3, Zero);
  }

  /** "1 2 5" with two vertices, one-based: stored as the edge from 0 to 1 of weight 5. */
  lemma {:induction false} OneLineOneBased()
    ensures ParseEdges("1 2 5", 2, One) == Ok([Edge(0.0, 1.0, 5.0)])
  {
    assert DecimalLine(1, 2, 5) == "1 2 5";
    OneDecimalLine(1, 2, 5, 2, One);
  }

  /** "0 5 1" with three vertices, zero-based: line 1 is rejected, naming the range 0 to 2. */
  lemma {:induction false} VertexOutOfRange()
    ensures ParseEdges("0 5 1", 3, Zero) == Err(LineError(1, OutOfRange(0, 2)))
  {
    assert DecimalLine(0, 5, 1) == "0 5 1";
    OneDecimalLine(0, 5, 1, 3, Zero);
  }

  /** "-1 0 2", three vertices, zero-based: line 1 is out of the range 0 to 2. */
  lemma {:induction false} NegativeVertexOutOfRange()
    ensures ParseEdges("-1 0 2", 3, Zero) == Err(LineError(1, OutOfRange(0, 2)))
  {
    assert NegatedLine(1, 0, 2) == "-1 0 2";
    NegativeVertexRejected(1, 0, 2, 3);
  }

  /** "1 2": line 1 does not hold three numbers. */
  lemma {:induction false} TooFewNumbers()
    ensures ParseEdges("1 2", 3, Zero) == Err(LineError(1, WrongTokenCount))
  {
    TwoNumberLine("1", "2");
    assert "1" + " " + "2" == "1 2";
    OneLineText("1 2", 3, Zero);
  }

  /** Two runs of digits separated by a space: a content line of two tokens. */
  lemma {:induction false} TwoNumberLine(a: string, b: string)
    requires a != [] && b != [] && AllDigits(a) && AllDigits(b)
    ensures |Tokens(a + " " + b)| == 2
    ensures IsContentLine(a + " " + b)
    ensures forall i :: 0 <= i < |a + " " + b| ==> !IsNewline((a + " " + b)[i])
  {
    var line := a + " " + b;
    TwoTokens(a, b);
    DigitsHaveNoSeparator(a);
    DigitsHaveNoSeparator(b);
    assert line[0] == a[0] && line[|line| - 1] == b[|b| - 1];
    DigitIsNotWhitespace(a[0]);
    DigitIsNotWhitespace(b[|b| - 1]);
    assert forall i :: 0 <= i < |line| ==> line[i] == ' ' || line[i] in a || line[i] in b;
  }

  /** ",1 2": the leading comma leaves an empty first token, which `Number` reads as 0, so the line is
      accepted as the edge from 0 to 1 of weight 2. */
  lemma {:induction false} LeadingCommaReadsZero()
    ensures ParseEdges("," + "1 2", 3, Zero) == Ok([Edge(0.0, 1.0, 2.0)])
  {
    assert Decimal(1) + " " + Decimal(2) == "1 2";
    CommaLineVerdict(1, 2, 3, Zero);
    CommaLineIsContent(1, 2);
    OneLineText("," + "1 2", 3, Zero);
    assert InDisplayRange(0.0, 3, Zero) && InDisplayRange(1.0, 3, Zero);
  }

  /** A line of a comma and two natural numbers: the first endpoint is 0. */
  lemma {:induction false} CommaLineVerdict(v: nat, w: nat, vCount: int, mode: Mode)
    ensures ParseLine("," + (Decimal(v) + " " + Decimal(w)), vCount, mode) ==
              if InDisplayRange(0.0, vCount, mode) && InDisplayRange(v as real, vCount, mode)
              then Ok(StoredEdge(0.0, v as real, w as real, mode))
              else Err(OutOfRange(LowestId(mode), HighestId(vCount, mode)))
  {
    var line := "," + (Decimal(v) + " " + Decimal(w));
    CommaLineTokens(Decimal(v), Decimal(w));
    EmptyReadsZero();
    NumberOfDecimal(v);
    NumberOfDecimal(w);
    NumericLineVerdict(line, vCount, mode, 0.0, v as real, w as real);
  }

  /** A comma, digits, a space and digits: an empty token, then the two runs of digits. */
  lemma {:induction false} CommaLineTokens(a: string, b: string)
    requires a != [] && b != [] && AllDigits(a) && AllDigits(b)
    ensures Tokens("," + (a + " " + b)) == [[], a, b]
  {
    var rest := a + " " + b;
    assert Tokens(rest) == [a, b] by { TwoTokens(a, b); }
    assert rest != [] && !IsSeparator(rest[0]) by {
      assert rest[0] == a[0];
      DigitIsNotWhitespace(a[0]);
    }
    TokensAfterComma(rest);
  }

  lemma {:induction false} TwoTokens(a: string, b: string)
    requires a != [] && b != [] && AllDigits(a) && AllDigits(b)
    ensures Tokens(a + " " + b) == [a, b]
  {
    DigitsHaveNoSeparator(a);
    DigitsHaveNoSeparator(b);
    TokensOfWord(b);
    TokensAfterSpace(a, b);
  }

  /** `Number("")` is 0. */
  lemma {:induction false} EmptyReadsZero()
    ensures ToNumber("") == Some(0.0)
  {
    assert Trim("") == [];
  }

  lemma {:induction false} CommaLineIsContent(v: nat, w: nat)
    ensures IsContentLine("," + (Decimal(v) + " " + Decimal(w)))
    ensures forall i :: 0 <= i < |"," + (Decimal(v) + " " + Decimal(w))| ==>
              !IsNewline(("," + (Decimal(v) + " " + Decimal(w)))[i])
  {
    var a, b := Decimal(v), Decimal(w);
    var line := "," + (a + " " + b);
    DigitsHaveNoSeparator(a);
    DigitsHaveNoSeparator(b);
    assert line[|line| - 1] == b[|b| - 1];
    DigitIsNotWhitespace(b[|b| - 1]);
    assert forall i :: 0 <= i < |line| ==> line[i] == ',' || line[i] == ' ' || line[i] in a || line[i] in b;
  }
}
