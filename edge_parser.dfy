/**
 * `parseEdgesForBackend` (App.jsx): the edge text box, one `u v weight`
 * per line, turned into the zero-based edge list sent to the solver, or
 * the first line that is wrong.
 */
module EdgeParser {
  import opened Wrappers
  import opened JsText
  import opened JsNumber
  import opened Indexing

  /** Why one line is rejected, in the order the checks run. `OutOfRange` carries the bounds its message names. */
  datatype LineFault = WrongTokenCount | NotNumeric | OutOfRange(low: int, high: int)

  /** `NoEdges` when no line has content; otherwise the 1-based position of the first bad line
      among the non-empty lines, and why it is bad. */
  datatype EdgeError = NoEdges | LineError(line: nat, fault: LineFault)

  /** The `{ edges, error }` object the function returns. */
  datatype EdgesReply = EdgesReply(edges: Option<seq<Edge>>, error: Option<EdgeError>)

  /** A line as the parser keeps it: trimmed and not empty. */
  predicate IsContentLine(line: string) {
    line != [] && !IsWhitespace(line[0]) && !IsWhitespace(line[|line| - 1])
  }

  /** `.map((l) => l.trim()).filter((l) => l.length > 0)` */
  function TrimmedLines(raw: seq<string>): (lines: seq<string>)
    ensures |lines| <= |raw|
    ensures forall i :: 0 <= i < |lines| ==> IsContentLine(lines[i])
  {
    if raw == [] then []
    else
      var t := Trim(raw[0]);
      (if t == [] then [] else [t]) + TrimmedLines(raw[1..])
  }

  /** The lines of the text box that have content, in order. */
  function NonEmptyLines(text: string): (lines: seq<string>)
    ensures forall i :: 0 <= i < |lines| ==> IsContentLine(lines[i])
  {
    TrimmedLines(SplitLines(text))
  }

  /** One raw line is kept, as its trim, exactly when it is not all white space. */
  lemma {:induction false} TrimmedLinesOne(x: string)
    ensures TrimmedLines([x]) == if AllWhitespace(x) then [] else [Trim(x)]
  {
    assert [x][1..] == [];
  }

  /** The content lines of `x + "\n" + y` are those of `x`, then those of `y`, in order. */
  lemma {:induction false} NonEmptyLinesAppend(x: string, y: string)
    ensures NonEmptyLines(x + "\n" + y) == NonEmptyLines(x) + NonEmptyLines(y)
  {
    SplitLinesAppend(x, y);
    TrimmedLinesAppend(SplitLines(x), SplitLines(y));
  }

  /** A text without line feeds is one line: kept, trimmed, exactly when it is not all white space. */
  lemma {:induction false} NonEmptyLinesOfLine(line: string)
    requires forall i :: 0 <= i < |line| ==> !IsNewline(line[i])
    ensures NonEmptyLines(line) == if AllWhitespace(line) then [] else [Trim(line)]
  {
    SplitLinesOfLine(line);
    TrimmedLinesOne(line);
  }

  /** The three numbers typed on a line: there are some exactly when the line holds three tokens and
      `Number` reads each of them, and then they are, in order, the two endpoints and the weight. */
  function TypedEdge(line: string): (r: Option<Edge>)
    ensures r.Some? <==>
              && |Tokens(line)| == 3
              && ToNumber(Tokens(line)[0]).Some?
              && ToNumber(Tokens(line)[1]).Some?
              && ToNumber(Tokens(line)[2]).Some?
    ensures r.Some? ==>
              && ToNumber(Tokens(line)[0]) == Some(r.value.u)
              && ToNumber(Tokens(line)[1]) == Some(r.value.v)
              && ToNumber(Tokens(line)[2]) == Some(r.value.weight)
  {
    var parts := Tokens(line);
    if |parts| != 3 then None
    else
      match (ToNumber(parts[0]), ToNumber(parts[1]), ToNumber(parts[2]))
      case (Some(u), Some(v), Some(w)) => Some(Edge(u, v, w))
      case _ => None
  }

  /** One iteration of the loop of `parseEdgesForBackend`: the checks on a line, in their order, and the
      edge it stores. */
  function ParseLine(line: string, vCount: int, mode: Mode): (r: Result<Edge, LineFault>)
    // a stored edge refers to vertices of the graph
    ensures r.Ok? ==> InInternalRange(r.value.u, vCount) && InInternalRange(r.value.v, vCount)
  {
    if |Tokens(line)| != 3 then Err(WrongTokenCount)
    else
      match TypedEdge(line)
      case None => Err(NotNumeric)
      case Some(e) =>
        if InDisplayRange(e.u, vCount, mode) && InDisplayRange(e.v, vCount, mode) then
          Ok(StoredEdge(e.u, e.v, e.weight, mode))
        else Err(OutOfRange(LowestId(mode), HighestId(vCount, mode)))
  }

  /** The checks on a line run in order (token count, then numbers, then range), the first failing one is
      reported, and a line that passes them all is stored as the edge that was typed. */
  lemma {:induction false} ParseLineChecks(line: string, vCount: int, mode: Mode)
    ensures ParseLine(line, vCount, mode) == Err(WrongTokenCount) <==> |Tokens(line)| != 3
    ensures ParseLine(line, vCount, mode) == Err(NotNumeric) <==> |Tokens(line)| == 3 && TypedEdge(line).None?
    ensures ParseLine(line, vCount, mode).Ok? <==>
              && TypedEdge(line).Some?
              && InDisplayRange(TypedEdge(line).value.u, vCount, mode)
              && InDisplayRange(TypedEdge(line).value.v, vCount, mode)
    ensures ParseLine(line, vCount, mode).Ok? ==> TypedEdge(line) == Some(DisplayEdge(ParseLine(line, vCount, mode).value, mode))
    ensures ParseLine(line, vCount, mode).Err? && ParseLine(line, vCount, mode).error.OutOfRange? ==>
              && TypedEdge(line).Some?
              && ParseLine(line, vCount, mode).error == OutOfRange(LowestId(mode), HighestId(vCount, mode))
  {
    var t := TypedEdge(line);
    if t.Some? {
      DisplayStoredEdge(t.value.u, t.value.v, t.value.weight, mode);
    }
  }

  predicate EdgesInRange(edges: seq<Edge>, vCount: int) {
    forall i :: 0 <= i < |edges| ==> InInternalRange(edges[i].u, vCount) && InInternalRange(edges[i].v, vCount)
  }

  /** Each line's own verdict, in order. */
  function Verdicts(lines: seq<string>, vCount: int, mode: Mode): (r: seq<Result<Edge, LineFault>>)
    ensures |r| == |lines|
  {
    if lines == [] then [] else [ParseLine(lines[0], vCount, mode)] + Verdicts(lines[1..], vCount, mode)
  }

  lemma {:induction false} VerdictAt(lines: seq<string>, i: nat, vCount: int, mode: Mode)
    requires i < |lines|
    ensures Verdicts(lines, vCount, mode)[i] == ParseLine(lines[i], vCount, mode)
    decreases i
  {
    if i > 0 {
      VerdictAt(lines[1..], i - 1, vCount, mode);
    }
  }

  /** The loop over the lines, as a function of the verdicts of the lines processed so far: it stops at
      the first rejected line and reports its 1-based position. */
  function Collect(verdicts: seq<Result<Edge, LineFault>>): (r: Result<seq<Edge>, EdgeError>)
    ensures r.Ok? ==> |r.value| == |verdicts|
    ensures r.Err? ==> r.error.LineError? && 1 <= r.error.line <= |verdicts|
    decreases |verdicts|
  {
    if verdicts == [] then Ok([])
    else
      match Collect(verdicts[..|verdicts| - 1])
      case Err(e) => Err(e)
      case Ok(edges) =>
        match verdicts[|verdicts| - 1]
        case Err(f) => Err(LineError(|verdicts|, f))
        case Ok(e) => Ok(edges + [e])
  }

  /** What `parseEdgesForBackend` computes. */
  function ParseEdges(text: string, vCount: int, mode: Mode): (r: Result<seq<Edge>, EdgeError>)
    // `NoEdges` exactly for a text without content; otherwise one edge per non-empty line, or the
    // position of a bad line among them
    ensures r == Err(NoEdges) <==> NonEmptyLines(text) == []
    ensures r.Ok? ==> |r.value| == |NonEmptyLines(text)|
    ensures r.Err? && r.error.LineError? ==> 1 <= r.error.line <= |NonEmptyLines(text)|
  {
    var lines := NonEmptyLines(text);
    if lines == [] then Err(NoEdges) else Collect(Verdicts(lines, vCount, mode))
  }

  function ReplyOf(r: Result<seq<Edge>, EdgeError>): EdgesReply {
    match r
    case Ok(edges) => EdgesReply(Some(edges), None)
    case Err(e) => EdgesReply(None, Some(e))
  }

  /** The checks the loop of `parseEdgesForBackend` runs on one line, in their order: three tokens, all
      numbers, both endpoints in the range of the indexing mode; a line that passes gives the stored edge. */
  method CheckLine(line: string, vCount: int, mode: Mode) returns (verdict: Result<Edge, LineFault>)
    ensures verdict == ParseLine(line, vCount, mode)
  {
    var parts := Tokens(line);
    if |parts| != 3 {
      return Err(WrongTokenCount);
    }
    var uRaw, vRaw, w := ToNumber(parts[0]), ToNumber(parts[1]), ToNumber(parts[2]);
    if uRaw.None? || vRaw.None? || w.None? {
      NonNumericLineVerdict(line, vCount, mode);
      return Err(NotNumeric);
    }
    NumericLineVerdict(line, vCount, mode, uRaw.value, vRaw.value, w.value);
    verdict := CheckRange(uRaw.value, vRaw.value, w.value, vCount, mode);
  }

  /** The last check of a line: both endpoints in the range of the indexing mode, its bounds named in
      the error; an edge that passes is stored zero-based. */
  method CheckRange(u: real, v: real, w: real, vCount: int, mode: Mode) returns (verdict: Result<Edge, LineFault>)
    ensures verdict.Ok? <==> InDisplayRange(u, vCount, mode) && InDisplayRange(v, vCount, mode)
    ensures verdict.Ok? ==> verdict.value == StoredEdge(u, v, w, mode)
    ensures verdict.Err? ==> verdict.error == OutOfRange(LowestId(mode), HighestId(vCount, mode))
  {
    if mode == Zero {
      if u < 0.0 || v < 0.0 || u >= vCount as real || v >= vCount as real {
        return Err(OutOfRange(0, vCount - 1));
      }
      return Ok(Edge(u, v, w));
    } else {
      if u < 1.0 || v < 1.0 || u > vCount as real || v > vCount as real {
        return Err(OutOfRange(1, vCount));
      }
      return Ok(Edge(u - 1.0, v - 1.0, w));
    }
  }

  method ParseEdgesForBackend(text: string, vCount: int, mode: Mode) returns (reply: EdgesReply)
    ensures (reply.edges == None) != (reply.error == None)
    ensures reply == ReplyOf(ParseEdges(text, vCount, mode))
  {
    var lines := NonEmptyLines(text);
    if |lines| == 0 {
      return EdgesReply(None, Some(NoEdges));
    }
    ghost var verdicts := Verdicts(lines, vCount, mode);
    var edgesForBackend: seq<Edge> := [];
    for i := 0 to |lines|
      invariant Collect(verdicts[..i]) == Ok(edgesForBackend)
    {
      VerdictAt(lines, i, vCount, mode);
      var verdict := CheckLine(lines[i], vCount, mode);
      if verdict.Err? {
        StopsAtBadLine(verdicts, i);
        return EdgesReply(None, Some(LineError(i + 1, verdict.error)));
      }
      NextVerdict(verdicts, i);
      edgesForBackend := edgesForBackend + [verdict.value];
    }
    assert verdicts[..|lines|] == verdicts;
    return EdgesReply(Some(edgesForBackend), None);
  }

  /** One more verdict extends the edges by that line's edge, or fails at it. */
  lemma {:induction false} NextVerdict(verdicts: seq<Result<Edge, LineFault>>, i: nat)
    requires i < |verdicts|
    ensures Collect(verdicts[..i + 1]) ==
              match Collect(verdicts[..i])
              case Err(e) => Err(e)
              case Ok(edges) =>
                match verdicts[i]
                case Err(f) => Err(LineError(i + 1, f))
                case Ok(e) => Ok(edges + [e])
  {
    assert verdicts[..i + 1][..i] == verdicts[..i];
  }

  /** The verdict on a line whose three tokens are the numbers `u`, `v` and `w`. */
  lemma {:induction false} NumericLineVerdict(line: string, vCount: int, mode: Mode, u: real, v: real, w: real)
    requires |Tokens(line)| == 3
    requires ToNumber(Tokens(line)[0]) == Some(u) && ToNumber(Tokens(line)[1]) == Some(v)
    requires ToNumber(Tokens(line)[2]) == Some(w)
    ensures ParseLine(line, vCount, mode) ==
              if InDisplayRange(u, vCount, mode) && InDisplayRange(v, vCount, mode) then Ok(StoredEdge(u, v, w, mode))
              else Err(OutOfRange(LowestId(mode), HighestId(vCount, mode)))
  {
  }

  /** A line of three tokens, one of which `Number` cannot read, is rejected as not numeric. */
  lemma {:induction false} NonNumericLineVerdict(line: string, vCount: int, mode: Mode)
    requires |Tokens(line)| == 3
    requires ToNumber(Tokens(line)[0]).None? || ToNumber(Tokens(line)[1]).None? || ToNumber(Tokens(line)[2]).None?
    ensures ParseLine(line, vCount, mode) == Err(NotNumeric)
  {
  }

  /** A failure on a prefix of the lines is the failure of all of them. */
  lemma {:induction false} ErrorPersists(verdicts: seq<Result<Edge, LineFault>>, k: nat)
    requires k <= |verdicts| && Collect(verdicts[..k]).Err?
    ensures Collect(verdicts) == Collect(verdicts[..k])
    decreases |verdicts| - k
  {
    if k == |verdicts| {
      assert verdicts[..k] == verdicts;
    } else {
      NextVerdict(verdicts, k);
      ErrorPersists(verdicts, k + 1);
    }
  }

  /** The loop returns at the first bad line, and so does the specification. */
  lemma {:induction false} StopsAtBadLine(verdicts: seq<Result<Edge, LineFault>>, i: nat)
    requires i < |verdicts| && Collect(verdicts[..i]).Ok? && verdicts[i].Err?
    ensures Collect(verdicts) == Err(LineError(i + 1, verdicts[i].error))
  {
    NextVerdict(verdicts, i);
    ErrorPersists(verdicts, i + 1);
  }

  /** All lines are accepted exactly when each line is. */
  lemma {:induction false} CollectAllOk(verdicts: seq<Result<Edge, LineFault>>)
    ensures Collect(verdicts).Ok? <==> forall i :: 0 <= i < |verdicts| ==> verdicts[i].Ok?
    decreases |verdicts|
  {
    if verdicts != [] {
      var n := |verdicts| - 1;
      var front := verdicts[..n];
      CollectAllOk(front);
      if Collect(front).Err? {
        var j :| 0 <= j < n && front[j].Err?;
        assert front[j] == verdicts[j];
      } else {
        assert forall i :: 0 <= i < n ==> front[i] == verdicts[i];
      }
    }
  }

  /** The accepted lines' edges are the lines' own edges, in order. */
  lemma {:induction false} CollectEdges(verdicts: seq<Result<Edge, LineFault>>)
    requires Collect(verdicts).Ok?
    ensures forall i :: 0 <= i < |verdicts| ==> verdicts[i] == Ok(Collect(verdicts).value[i])
    decreases |verdicts|
  {
    if verdicts != [] {
      var n := |verdicts| - 1;
      var front := verdicts[..n];
      CollectEdges(front);
      assert Collect(verdicts).value == Collect(front).value + [verdicts[n].value];
      forall i | 0 <= i < n
        ensures verdicts[i] == Ok(Collect(verdicts).value[i])
      {
        assert front[i] == verdicts[i];
      }
    }
  }

  /** On failure, the reported line is the first rejected line, with that line's own fault. */
  lemma {:induction false} CollectFirstError(verdicts: seq<Result<Edge, LineFault>>)
    requires Collect(verdicts).Err?
    ensures var e := Collect(verdicts).error;
            && 1 <= e.line <= |verdicts|
            && verdicts[e.line - 1] == Err(e.fault)
            && forall j :: 0 <= j < e.line - 1 ==> verdicts[j].Ok?
    decreases |verdicts|
  {
    var n := |verdicts| - 1;
    var front := verdicts[..n];
    assert forall i :: 0 <= i < n ==> front[i] == verdicts[i];
    if Collect(front).Err? {
      CollectFirstError(front);
    } else {
      CollectAllOk(front);
    }
  }

  /** Every line's verdict, read off the verdict list. */
  lemma {:induction false} VerdictsAre(lines: seq<string>, vCount: int, mode: Mode)
    ensures forall i :: 0 <= i < |lines| ==> Verdicts(lines, vCount, mode)[i] == ParseLine(lines[i], vCount, mode)
  {
    forall i | 0 <= i < |lines|
      ensures Verdicts(lines, vCount, mode)[i] == ParseLine(lines[i], vCount, mode)
    {
      VerdictAt(lines, i, vCount, mode);
    }
  }

  /** The text is accepted exactly when it has a content line and every content line passes its checks. */
  lemma {:induction false} ParseEdgesAcceptsIff(text: string, vCount: int, mode: Mode)
    ensures ParseEdges(text, vCount, mode).Ok? <==>
              && NonEmptyLines(text) != []
              && forall i :: 0 <= i < |NonEmptyLines(text)| ==> ParseLine(NonEmptyLines(text)[i], vCount, mode).Ok?
  {
    var lines := NonEmptyLines(text);
    VerdictsAre(lines, vCount, mode);
    CollectAllOk(Verdicts(lines, vCount, mode));
  }

  /** On success there is one edge per content line, in order: the line's own edge, inside the graph,
      and shown back as the numbers typed on the line. */
  lemma {:induction false} ParseEdgesAccepted(text: string, vCount: int, mode: Mode)
    requires ParseEdges(text, vCount, mode).Ok?
    ensures |ParseEdges(text, vCount, mode).value| == |NonEmptyLines(text)|
    ensures EdgesInRange(ParseEdges(text, vCount, mode).value, vCount)
    ensures forall i :: 0 <= i < |NonEmptyLines(text)| ==>
              ParseLine(NonEmptyLines(text)[i], vCount, mode) == Ok(ParseEdges(text, vCount, mode).value[i])
    ensures forall i :: 0 <= i < |NonEmptyLines(text)| ==>
              TypedEdge(NonEmptyLines(text)[i]) == Some(DisplayEdge(ParseEdges(text, vCount, mode).value[i], mode))
  {
    var lines := NonEmptyLines(text);
    var verdicts := Verdicts(lines, vCount, mode);
    var edges := ParseEdges(text, vCount, mode).value;
    VerdictsAre(lines, vCount, mode);
    CollectEdges(verdicts);
    forall i | 0 <= i < |lines|
      ensures InInternalRange(edges[i].u, vCount) && InInternalRange(edges[i].v, vCount)
      ensures TypedEdge(lines[i]) == Some(DisplayEdge(edges[i], mode))
    {
      assert ParseLine(lines[i], vCount, mode) == Ok(edges[i]);
      ParseLineChecks(lines[i], vCount, mode);
    }
  }

  /** On failure: `NoEdges` exactly when no line has content, and otherwise the position of the first
      content line that fails, with that line's own fault. */
  lemma {:induction false} ParseEdgesRejected(text: string, vCount: int, mode: Mode)
    requires ParseEdges(text, vCount, mode).Err?
    ensures ParseEdges(text, vCount, mode).error == NoEdges <==> NonEmptyLines(text) == []
    ensures ParseEdges(text, vCount, mode).error.LineError? ==>
              && 1 <= ParseEdges(text, vCount, mode).error.line <= |NonEmptyLines(text)|
              && ParseLine(NonEmptyLines(text)[ParseEdges(text, vCount, mode).error.line - 1], vCount, mode)
                   == Err(ParseEdges(text, vCount, mode).error.fault)
              && forall j :: 0 <= j < ParseEdges(text, vCount, mode).error.line - 1 ==>
                   ParseLine(NonEmptyLines(text)[j], vCount, mode).Ok?
  {
    var lines := NonEmptyLines(text);
    if lines != [] {
      var verdicts := Verdicts(lines, vCount, mode);
      assert ParseEdges(text, vCount, mode) == Collect(verdicts);
      CollectFirstError(verdicts);
      var e := Collect(verdicts).error;
      assert verdicts[e.line - 1] == Err(e.fault);
      VerdictAt(lines, e.line - 1, vCount, mode);
      forall j | 0 <= j < e.line - 1
        ensures ParseLine(lines[j], vCount, mode).Ok?
      {
        assert verdicts[j].Ok?;
        VerdictAt(lines, j, vCount, mode);
      }
    }
  }

  /** The edges of an accepted text, sent back through `mstEdgesDisplay`, are the numbers typed. */
  lemma {:induction false} ParsedEdgesDisplayAsTyped(text: string, vCount: int, mode: Mode)
    requires ParseEdges(text, vCount, mode).Ok?
    ensures |MstEdgesDisplay(Some(ParseEdges(text, vCount, mode).value), mode)| == |NonEmptyLines(text)|
    ensures forall i :: 0 <= i < |NonEmptyLines(text)| ==>
              Some(MstEdgesDisplay(Some(ParseEdges(text, vCount, mode).value), mode)[i]) == TypedEdge(NonEmptyLines(text)[i])
  {
    ParseEdgesAccepted(text, vCount, mode);
  }

  /** Trimming and filtering works line by line. */
  lemma {:induction false} TrimmedLinesAppend(a: seq<string>, b: seq<string>)
    ensures TrimmedLines(a + b) == TrimmedLines(a) + TrimmedLines(b)
    decreases |a|
  {
    if a == [] {
      assert a + b == b;
    } else {
      assert (a + b)[0] == a[0];
      assert (a + b)[1..] == a[1..] + b;
      TrimmedLinesAppend(a[1..], b);
      var t := Trim(a[0]);
      var head: seq<string> := if t == [] then [] else [t];
      assert head + (TrimmedLines(a[1..]) + TrimmedLines(b)) == (head + TrimmedLines(a[1..])) + TrimmedLines(b);
    }
  }

  /** Lines that are only white space leave nothing behind. */
  lemma {:induction false} TrimmedLinesOfBlank(raw: seq<string>)
    requires forall i :: 0 <= i < |raw| ==> AllWhitespace(raw[i])
    ensures TrimmedLines(raw) == []
    decreases |raw|
  {
    if raw != [] {
      TrimmedLinesOfBlank(raw[1..]);
    }
  }

  /** A text that is only white space has no content line, so it is rejected with `NoEdges`. */
  lemma {:induction false} BlankTextHasNoEdges(text: string, vCount: int, mode: Mode)
    requires AllWhitespace(text)
    ensures ParseEdges(text, vCount, mode) == Err(NoEdges)
  {
    SplitLinesOfWhitespace(text);
    TrimmedLinesOfBlank(SplitLines(text));
  }

  /** Inserting blank or white-space lines between two lines leaves the content lines as they were. */
  lemma {:induction false} BlankLinesDropped(x: string, blank: string, y: string)
    requires AllWhitespace(blank)
    ensures NonEmptyLines(x + "\n" + blank + "\n" + y) == NonEmptyLines(x + "\n" + y)
  {
    SplitLinesOfThree(x, blank, y);
    SplitLinesAppend(x, y);
    SplitLinesOfWhitespace(blank);
    TrimmedLinesOfBlank(SplitLines(blank));
    DropBlankPieces(SplitLines(x), SplitLines(blank), SplitLines(y));
  }

  /** Pieces that trim to nothing can be dropped from the middle of the lines. */
  lemma {:induction false} DropBlankPieces(xs: seq<string>, bs: seq<string>, ys: seq<string>)
    requires TrimmedLines(bs) == []
    ensures TrimmedLines(xs + (bs + ys)) == TrimmedLines(xs + ys)
  {
    TrimmedLinesAppend(bs, ys);
    assert TrimmedLines(bs + ys) == TrimmedLines(ys) by {
      assert [] + TrimmedLines(ys) == TrimmedLines(ys);
    }
    TrimmedLinesAppend(xs, bs + ys);
    TrimmedLinesAppend(xs, ys);
  }

  /** Hence they change neither the edges nor the error. */
  lemma {:induction false} BlankLinesIgnored(x: string, blank: string, y: string, vCount: int, mode: Mode)
    requires AllWhitespace(blank)
    ensures ParseEdges(x + "\n" + blank + "\n" + y, vCount, mode) == ParseEdges(x + "\n" + y, vCount, mode)
  {
    BlankLinesDropped(x, blank, y);
  }

  /** A line typed as three natural numbers separated by single spaces. */
  function DecimalLine(u: nat, v: nat, w: nat): string {
    Decimal(u) + " " + Decimal(v) + " " + Decimal(w)
  }

  /** Such a line holds exactly the three numbers typed. */
  lemma {:induction false} DecimalLineTyped(u: nat, v: nat, w: nat)
    ensures TypedEdge(DecimalLine(u, v, w)) == Some(Edge(u as real, v as real, w as real))
  {
    DigitsHaveNoSeparator(Decimal(u));
    DigitsHaveNoSeparator(Decimal(v));
    DigitsHaveNoSeparator(Decimal(w));
    TokensOfThree(Decimal(u), Decimal(v), Decimal(w));
    NumberOfDecimal(u);
    NumberOfDecimal(v);
    NumberOfDecimal(w);
  }

  /** A text that is one content line without line feeds is that line alone. */
  lemma {:induction false} SingleContentLine(line: string)
    requires IsContentLine(line) && forall i :: 0 <= i < |line| ==> !IsNewline(line[i])
    ensures NonEmptyLines(line) == [line]
  {
    SplitLinesOfLine(line);
    TrimKeepsUnpadded(line);
    assert [line][1..] == [];
  }

  lemma {:induction false} DecimalLineIsContent(u: nat, v: nat, w: nat)
    ensures IsContentLine(DecimalLine(u, v, w))
    ensures forall i :: 0 <= i < |DecimalLine(u, v, w)| ==> !IsNewline(DecimalLine(u, v, w)[i])
  {
    var a, b, c := Decimal(u), Decimal(v), Decimal(w);
    var line := a + " " + b + " " + c;
    DigitsHaveNoSeparator(a);
    DigitsHaveNoSeparator(c);
    assert line[0] == a[0] && line[|line| - 1] == c[|c| - 1];
    DigitIsNotWhitespace(a[0]);
    DigitIsNotWhitespace(c[|c| - 1]);
    DigitsHaveNoSeparator(b);
    assert forall i :: 0 <= i < |line| ==> line[i] == ' ' || line[i] in a || line[i] in b || line[i] in c;
  }

  /** A line of three natural numbers whose first endpoint is typed with a minus sign. */
  function NegatedLine(u: nat, v: nat, w: nat): string {
    ("-" + Decimal(u)) + " " + Decimal(v) + " " + Decimal(w)
  }

  /** Such a line holds the negated first number and the other two. */
  lemma {:induction false} NegatedLineTyped(u: nat, v: nat, w: nat)
    ensures TypedEdge(NegatedLine(u, v, w)) == Some(Edge(-(u as real), v as real, w as real))
  {
    var a := "-" + Decimal(u);
    SignedHasNoSeparator(Decimal(u));
    DigitsHaveNoSeparator(Decimal(v));
    DigitsHaveNoSeparator(Decimal(w));
    NumberOfNegated(u);
    NumberOfDecimal(v);
    NumberOfDecimal(w);
    assert NegatedLine(u, v, w) == a + " " + Decimal(v) + " " + Decimal(w);
    ThreeNumbersTyped(a, Decimal(v), Decimal(w), -(u as real), v as real, w as real);
  }

  /** Three separator-free words joined by single spaces, each read by `Number`, give those numbers. */
  lemma {:induction false} ThreeNumbersTyped(a: string, b: string, c: string, x: real, y: real, z: real)
    requires a != [] && b != [] && c != []
    requires NoSeparator(a) && NoSeparator(b) && NoSeparator(c)
    requires ToNumber(a) == Some(x) && ToNumber(b) == Some(y) && ToNumber(c) == Some(z)
    ensures TypedEdge(a + " " + b + " " + c) == Some(Edge(x, y, z))
  {
    TokensOfThree(a, b, c);
  }

  lemma {:induction false} NegatedLineIsContent(u: nat, v: nat, w: nat)
    ensures IsContentLine(NegatedLine(u, v, w))
    ensures forall i :: 0 <= i < |NegatedLine(u, v, w)| ==> !IsNewline(NegatedLine(u, v, w)[i])
  {
    var a, b, c := "-" + Decimal(u), Decimal(v), Decimal(w);
    var line := a + " " + b + " " + c;
    SignedHasNoSeparator(Decimal(u));
    DigitsHaveNoSeparator(b);
    DigitsHaveNoSeparator(c);
    assert line[0] == '-' && line[|line| - 1] == c[|c| - 1];
    DigitIsNotWhitespace(c[|c| - 1]);
    assert forall i :: 0 <= i < |line| ==> line[i] == ' ' || line[i] in a || line[i] in b || line[i] in c;
  }

  /** Zero-based, a text of one line whose first endpoint is negative is rejected on line 1 as out of
      the range 0 to `vCount - 1`. */
  lemma {:induction false} NegativeVertexRejected(u: nat, v: nat, w: nat, vCount: int)
    requires u >= 1
    ensures ParseEdges(NegatedLine(u, v, w), vCount, Zero) == Err(LineError(1, OutOfRange(0, vCount - 1)))
  {
    NegatedLineIsContent(u, v, w);
    OneLineText(NegatedLine(u, v, w), vCount, Zero);
    NegatedLineVerdict(u, v, w, vCount);
  }

  lemma {:induction false} NegatedLineVerdict(u: nat, v: nat, w: nat, vCount: int)
    requires u >= 1
    ensures ParseLine(NegatedLine(u, v, w), vCount, Zero) == Err(OutOfRange(0, vCount - 1))
  {
    NegatedLineTyped(u, v, w);
    assert !InDisplayRange(-(u as real), vCount, Zero);
    NumericLineVerdict(NegatedLine(u, v, w), vCount, Zero, -(u as real), v as real, w as real);
  }

  /** The verdict on a line of three natural numbers: its edge when both endpoints are in range. */
  lemma {:induction false} DecimalLineVerdict(u: nat, v: nat, w: nat, vCount: int, mode: Mode)
    ensures ParseLine(DecimalLine(u, v, w), vCount, mode) ==
              if InDisplayRange(u as real, vCount, mode) && InDisplayRange(v as real, vCount, mode)
              then Ok(StoredEdge(u as real, v as real, w as real, mode))
              else Err(OutOfRange(LowestId(mode), HighestId(vCount, mode)))
  {
    DecimalLineTyped(u, v, w);
    var line := DecimalLine(u, v, w);
    NumericLineVerdict(line, vCount, mode, u as real, v as real, w as real);
  }

  /** A text of one content line is accepted or rejected as that line is, as line 1. */
  lemma {:induction false} OneLineText(line: string, vCount: int, mode: Mode)
    requires IsContentLine(line) && forall i :: 0 <= i < |line| ==> !IsNewline(line[i])
    ensures ParseEdges(line, vCount, mode) ==
              match ParseLine(line, vCount, mode)
              case Ok(e) => Ok([e])
              case Err(f) => Err(LineError(1, f))
  {
    SingleContentLine(line);
    VerdictAt([line], 0, vCount, mode);
    CollectOne(ParseLine(line, vCount, mode));
  }

  lemma {:induction false} CollectOne(verdict: Result<Edge, LineFault>)
    ensures Collect([verdict]) ==
              match verdict
              case Ok(e) => Ok([e])
              case Err(f) => Err(LineError(1, f))
  {
    var front := [verdict][..0];
    assert front == [];
    assert Collect(front) == Ok([]);
    if verdict.Ok? {
      assert [] + [verdict.value] == [verdict.value];
    }
  }

  /** A text of one line of three natural numbers. */
  lemma {:induction false} OneDecimalLine(u: nat, v: nat, w: nat, vCount: int, mode: Mode)
    ensures ParseEdges(DecimalLine(u, v, w), vCount, mode) ==
              if InDisplayRange(u as real, vCount, mode) && InDisplayRange(v as real, vCount, mode)
              then Ok([StoredEdge(u as real, v as real, w as real, mode)])
              else Err(LineError(1, OutOfRange(LowestId(mode), HighestId(vCount, mode))))
  {
    DecimalLineIsContent(u, v, w);
    OneLineText(DecimalLine(u, v, w), vCount, mode);
    DecimalLineVerdict(u, v, w, vCount, mode);
  }
}
