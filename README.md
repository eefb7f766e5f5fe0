# GA-MST front end: form validation and vertex numbering

This project models the input side of the GA-MST web front end
(`Frontend_ttcsn/ga-mst-fe/src/App.jsx`). The user types five configuration
fields and a text box of edges, one `u v weight` per line. The page either
shows the first error or builds the payload for the genetic-algorithm
solver. The model covers four pieces:

- **`parseNumber`** turns one field into a number. It makes the first comma a
  point, trims, and then rejects in this order: empty, not a number, not an
  integer (when asked), below `min`, above `max`. The model is
  `FieldParser.ParseNumber`.
- **`parseEdgesForBackend`** turns the edge text into zero-based edges, or
  into the first bad line with its 1-based position among the non-empty
  lines. It splits on line feeds, trims and drops empty lines. Each line
  must have three tokens under `/[\s,]+/`, all numeric, with both endpoints
  in the range of the numbering mode. One-based input is stored minus one.
  The model has two parts:
  - the method `EdgeParser.ParseEdgesForBackend`, a loop over the lines with
    an early return and an invariant tying the edges built so far to the
    specification `EdgeParser.ParseEdges`;
  - the per-line method `EdgeParser.CheckLine`, with its last step, the
    range check, in `EdgeParser.CheckRange`. Both are proved against the
    per-line specification `EdgeParser.ParseLine`, which reads the line's
    numbers with `EdgeParser.TypedEdge`.
- **The validation prefix of `handleRunClick`**, modelled as
  `RunRequest.BuildRunRequest` and `RunRequest.Assemble`. The five fields
  are read in a fixed order and the first failure is shown. Only then is the
  edge text parsed, with the parsed vertex count, and the payload built.
- **`mstEdgesDisplay`**, modelled as `Indexing.MstEdgesDisplay`. It shows
  the solver's zero-based edges in the user's numbering.

The JavaScript library operations the code depends on are modelled in their
own modules:

- `trim`, `split("\n")`, `replace(",", ".")` and `split(/[\s,]+/)` in
  `JsText`;
- `Number(string)` in `JsNumber`.

Numbers are exact reals. `None` stands for `NaN`.

Modules, in dependency order:

- `Wrappers`
- `JsText`
- `JsNumber`
- `Indexing`
- `FieldParser`
- `EdgeParser`
- `RunRequest`
- `EdgeExamples` (worked inputs)

Two behaviours of the source are modelled as written:

- The reported line number counts only non-empty lines. Blank lines typed
  before a bad line therefore make the number smaller than the line's
  position in the text box.
- Vertex numbers are checked only for `NaN` and range, so a fractional
  vertex such as `1.5` is accepted.

## Model

| member | source | states |
|---|---|---|
| JsText.Trim | Frontend_ttcsn/ga-mst-fe/src/App.jsx:33 | `trim()` gives the empty text exactly when the text is all white space; otherwise the result neither starts nor ends with white space |
| JsText.TrimRemovesOnlyWhitespace | Frontend_ttcsn/ga-mst-fe/src/App.jsx:33 | the text is a white-space pad, then its trim, then a white-space pad: trimming removes nothing else |
| JsText.TrimKeepsUnpadded | Frontend_ttcsn/ga-mst-fe/src/App.jsx:33 | a text that neither starts nor ends with white space is its own trim |
| JsText.ReplaceFirstComma | Frontend_ttcsn/ga-mst-fe/src/App.jsx:33 | `replace(",", ".")` keeps the length and changes only the position of the first comma, which becomes a point |
| JsText.ReplaceFirstCommaAt | Frontend_ttcsn/ga-mst-fe/src/App.jsx:33 | in `a + "," + b` with no comma in `a`, that comma becomes a point and `b`, commas included, is kept as is |
| JsText.SplitLines | Frontend_ttcsn/ga-mst-fe/src/App.jsx:55-56 | `split("\n")` gives one piece more than there are line feeds |
| JsText.JoinSplitLines | Frontend_ttcsn/ga-mst-fe/src/App.jsx:55-56 | joining the pieces with line feeds gives the text back |
| JsText.SplitLinesAppend | Frontend_ttcsn/ga-mst-fe/src/App.jsx:55-56 | splitting `x + "\n" + y` gives the pieces of `x` followed by the pieces of `y` |
| JsText.SplitLinesHaveNoNewline | Frontend_ttcsn/ga-mst-fe/src/App.jsx:55-56 | no piece holds a line feed |
| JsText.SplitLinesOfWhitespace | Frontend_ttcsn/ga-mst-fe/src/App.jsx:55-58 | every piece of an all-white-space text is all white space |
| JsText.TokensAreSeparatorFree | Frontend_ttcsn/ga-mst-fe/src/App.jsx:68 | no token of `split(/[\s,]+/)` holds white space or a comma |
| JsText.InnerTokensNonEmpty | Frontend_ttcsn/ga-mst-fe/src/App.jsx:68 | separator runs are maximal, so only the first and the last token can be empty |
| JsText.TokensKeepContent | Frontend_ttcsn/ga-mst-fe/src/App.jsx:68 | the tokens, concatenated, are the text with every separator removed, in order |
| JsText.TokensAfterComma | Frontend_ttcsn/ga-mst-fe/src/App.jsx:68 | a comma at the very start of a line gives an empty first token |
| JsText.TokensOfThree | Frontend_ttcsn/ga-mst-fe/src/App.jsx:68 | three separator-free words joined by single spaces split into exactly those three tokens |
| JsText.Tokens | Frontend_ttcsn/ga-mst-fe/src/App.jsx:68 | `split(/[\s,]+/)` always gives at least one piece; the lemmas below fix what the pieces are |
| JsText.SeparatorRuns | Frontend_ttcsn/ga-mst-fe/src/App.jsx:68 | the text holds one separator run fewer than it has tokens |
| JsText.TokensRejoin | Frontend_ttcsn/ga-mst-fe/src/App.jsx:68 | every run the split cuts at is a non-empty stretch of white space and commas, no token holds such a character, and putting the runs back between the tokens gives the text again |
| JsText.TokensOfInterleave | Frontend_ttcsn/ga-mst-fe/src/App.jsx:68 | conversely, separator-free pieces whose inner ones are non-empty, joined by separator runs, split back into exactly those pieces, so no other cut is possible |
| JsNumber.NumberOfDecimal | Frontend_ttcsn/ga-mst-fe/src/App.jsx:76-78 | `Number` reads the decimal text of every natural number back as that number |
| JsNumber.NumberOfPointed | Frontend_ttcsn/ga-mst-fe/src/App.jsx:37 | `Number("d.f")` is the whole part plus the fraction |
| JsNumber.CommaAfterFractionIsNaN | Frontend_ttcsn/ga-mst-fe/src/App.jsx:37-40 | digits, a point, digits, a comma and digits is `NaN` |
| JsNumber.ToNumber | Frontend_ttcsn/ga-mst-fe/src/App.jsx:76-78 | `Number` of an empty or all-white-space text is 0 |
| JsNumber.NumberOfTrimmed | Frontend_ttcsn/ga-mst-fe/src/App.jsx:37 | surrounding white space never changes what `Number` reads |
| JsNumber.NumberOfNegated | Frontend_ttcsn/ga-mst-fe/src/App.jsx:76-78 | `Number` reads a minus sign before the decimal text of a natural number as its negation |
| JsNumber.NumberOfPlusSigned | Frontend_ttcsn/ga-mst-fe/src/App.jsx:76-78 | a plus sign before the decimal text of a natural number leaves its value unchanged |
| JsNumber.MinusLiteral | Frontend_ttcsn/ga-mst-fe/src/App.jsx:37 | an unpadded text that starts with `-` is read as the negation of the rest |
| JsNumber.PlusLiteral | Frontend_ttcsn/ga-mst-fe/src/App.jsx:37 | an unpadded text that starts with `+` is read as the rest |
| JsNumber.NumberOfNegatedPointed | Frontend_ttcsn/ga-mst-fe/src/App.jsx:37 | `Number("-d.f")` is minus the whole part plus the fraction |
| FieldParser.ParseNumber | Frontend_ttcsn/ga-mst-fe/src/App.jsx:32-51 | a thrown error names the field; a returned value meets every requested constraint |
| FieldParser.Normalize | Frontend_ttcsn/ga-mst-fe/src/App.jsx:33 | the text handed to `Number` is no longer than the field. It is empty exactly when the field, its first comma made a point, is all white space, and otherwise neither starts nor ends with white space |
| FieldParser.ParseNumberChecks | Frontend_ttcsn/ga-mst-fe/src/App.jsx:32-51 | a value is returned iff the normalized text is non-empty, numeric and meets the options, and it is `Number` of that text. Otherwise the error is the first failing check in the order empty, not a number, not an integer, below `min`, above `max`, with each iff or implication stated |
| FieldParser.DecimalCommaAccepted | Frontend_ttcsn/ga-mst-fe/src/App.jsx:33-37 | `"0,8"` is accepted as 0.8 |
| FieldParser.SecondCommaNotANumber | Frontend_ttcsn/ga-mst-fe/src/App.jsx:33-40 | with two commas, as in `"1,0,0"`, only the first becomes a point and the field is rejected as not a number |
| FieldParser.RateAboveOneRejected | Frontend_ttcsn/ga-mst-fe/src/App.jsx:47-49 | `"1.5"` in a rate field is rejected as above the maximum 1 |
| FieldParser.NormalizePlain | Frontend_ttcsn/ga-mst-fe/src/App.jsx:33 | a text without a comma or surrounding white space is handed to `Number` unchanged |
| FieldParser.NegativeRateRejected | Frontend_ttcsn/ga-mst-fe/src/App.jsx:33-45 | `"-0,5"` in a rate field becomes -0.5 and is rejected as below the minimum 0 |
| EdgeParser.TrimmedLines | Frontend_ttcsn/ga-mst-fe/src/App.jsx:57-58 | the kept lines are trimmed and non-empty, and there are no more of them than raw lines |
| EdgeParser.NonEmptyLines | Frontend_ttcsn/ga-mst-fe/src/App.jsx:55-58 | every line kept from the text box is trimmed and non-empty |
| EdgeParser.TrimmedLinesOne | Frontend_ttcsn/ga-mst-fe/src/App.jsx:57-58 | a single raw line is dropped when it is all white space and otherwise kept, trimmed |
| EdgeParser.NonEmptyLinesAppend | Frontend_ttcsn/ga-mst-fe/src/App.jsx:55-58 | the lines kept from two texts joined by a line feed are those kept from the first followed by those kept from the second |
| EdgeParser.NonEmptyLinesOfLine | Frontend_ttcsn/ga-mst-fe/src/App.jsx:55-58 | a text without a line feed gives no line when blank and otherwise exactly its trimmed self |
| EdgeParser.NegativeVertexRejected | Frontend_ttcsn/ga-mst-fe/src/App.jsx:87-95 | in zero-based mode a line whose first endpoint is negative, `"-u v w"`, is rejected at line 1 with the range `[0, vCount-1]` |
| EdgeParser.TypedEdge | Frontend_ttcsn/ga-mst-fe/src/App.jsx:68-85 | a line has typed numbers exactly when it holds three tokens and `Number` reads each of them; they are then, in order, the two endpoints and the weight |
| EdgeParser.ParseLine | Frontend_ttcsn/ga-mst-fe/src/App.jsx:67-107 | a stored edge has both endpoints inside the graph, `0 <= u, v < vCount` |
| EdgeParser.ParseLineChecks | Frontend_ttcsn/ga-mst-fe/src/App.jsx:68-107 | the line's checks run in the order token count, numbers, range, and the first failing one is reported (each as an iff). An accepted line is stored as the typed edge, shown back as typed, and the range error names `[0, vCount-1]` or `[1, vCount]` |
| EdgeParser.Collect | Frontend_ttcsn/ga-mst-fe/src/App.jsx:66-110 | the loop gives one edge per line, or a 1-based line position within the lines |
| EdgeParser.CollectAllOk | Frontend_ttcsn/ga-mst-fe/src/App.jsx:66-110 | the loop finishes exactly when every line is accepted |
| EdgeParser.CollectEdges | Frontend_ttcsn/ga-mst-fe/src/App.jsx:97-110 | the edges returned are each line's own edge, in line order |
| EdgeParser.CollectFirstError | Frontend_ttcsn/ga-mst-fe/src/App.jsx:69-96 | the reported position is that of the first rejected line, with that line's fault; every earlier line was accepted |
| EdgeParser.StopsAtBadLine | Frontend_ttcsn/ga-mst-fe/src/App.jsx:69-96 | returning at line `i` after accepting all earlier lines is the outcome of the whole loop |
| EdgeParser.CheckLine | Frontend_ttcsn/ga-mst-fe/src/App.jsx:67-107 | the loop body's checks, step by step, give the line's verdict |
| EdgeParser.NonNumericLineVerdict | Frontend_ttcsn/ga-mst-fe/src/App.jsx:76-85 | a line of three tokens, one of which `Number` cannot read, gets the "not numeric" fault |
| EdgeParser.CheckRange | Frontend_ttcsn/ga-mst-fe/src/App.jsx:87-107 | an edge is stored exactly when both endpoints pass the range check of the mode, as the zero-based edge with the weight kept; otherwise the error names the bounds of the mode |
| EdgeParser.ParseEdgesForBackend | Frontend_ttcsn/ga-mst-fe/src/App.jsx:54-111 | exactly one of `edges` and `error` is set, and the reply is the outcome of the specification |
| EdgeParser.ParseEdges | Frontend_ttcsn/ga-mst-fe/src/App.jsx:54-111 | "no edge lines" exactly when no line has content; otherwise one edge per non-empty line, or the 1-based position of a bad line among them |
| EdgeParser.ParseEdgesAcceptsIff | Frontend_ttcsn/ga-mst-fe/src/App.jsx:54-111 | the text is accepted iff it has a non-empty line and every such line passes its checks |
| EdgeParser.ParseEdgesAccepted | Frontend_ttcsn/ga-mst-fe/src/App.jsx:87-110 | on success: one edge per non-empty line, in order, each that line's edge, inside the graph, with the weight as typed |
| EdgeParser.ParseEdgesRejected | Frontend_ttcsn/ga-mst-fe/src/App.jsx:60-96 | on failure: "no edge lines" exactly when no line has content. Otherwise the position is 1-based among the non-empty lines, that line has the reported fault, and every earlier line passes |
| EdgeParser.BlankTextHasNoEdges | Frontend_ttcsn/ga-mst-fe/src/App.jsx:55-62 | an all-white-space text is rejected with "no edge lines" |
| EdgeParser.BlankLinesDropped | Frontend_ttcsn/ga-mst-fe/src/App.jsx:55-58 | blank or white-space lines inserted between two lines leave the non-empty lines unchanged |
| EdgeParser.BlankLinesIgnored | Frontend_ttcsn/ga-mst-fe/src/App.jsx:55-62 | such lines change neither the edges nor the error |
| EdgeParser.ParsedEdgesDisplayAsTyped | Frontend_ttcsn/ga-mst-fe/src/App.jsx:209-214 | the accepted edges, displayed in the same numbering, are the numbers typed on the lines |
| EdgeParser.OneDecimalLine | Frontend_ttcsn/ga-mst-fe/src/App.jsx:66-110 | one line of three natural numbers gives its stored edge when both endpoints are in range, else a range error on line 1 |
| Indexing.ToInternalId | Frontend_ttcsn/ga-mst-fe/src/App.jsx:97-106 | a typed number is stored less the lowest number of the numbering: unchanged zero-based, minus 1 one-based |
| Indexing.ToDisplayId | Frontend_ttcsn/ga-mst-fe/src/App.jsx:213 | storing a displayed number gives the stored number back |
| Indexing.InternalDisplayRoundTrip | Frontend_ttcsn/ga-mst-fe/src/App.jsx:209-214 | displaying a stored typed number gives the typed number back |
| Indexing.InDisplayRange | Frontend_ttcsn/ga-mst-fe/src/App.jsx:87-106 | an endpoint that passes the range check is stored inside the graph, `0 <= x < vCount`, so the graph has a vertex; one-based, it is stored at most at `vCount-1` |
| Indexing.OneBasedBoundaries | Frontend_ttcsn/ga-mst-fe/src/App.jsx:98-106 | one-based: 1 is stored as 0 and `vCount` as `vCount-1`, both are accepted, and both are shown back as typed |
| Indexing.WholeIdsCorrespond | Frontend_ttcsn/ga-mst-fe/src/App.jsx:87-106 | on whole numbers, passing the range check equals being stored inside the graph, and equals lying between the bounds named in the message |
| Indexing.StoredEdge | Frontend_ttcsn/ga-mst-fe/src/App.jsx:97-106 | a stored edge is shown back with the numbers that were typed, and its weight is kept |
| Indexing.DisplayEdge | Frontend_ttcsn/ga-mst-fe/src/App.jsx:209-214 | the displayed endpoints are stored back as the original endpoints, the weight is kept, and zero-based display is the identity |
| Indexing.DisplayStoredEdge | Frontend_ttcsn/ga-mst-fe/src/App.jsx:209-214 | displaying a stored typed edge gives the typed edge |
| Indexing.StoredDisplayEdge | Frontend_ttcsn/ga-mst-fe/src/App.jsx:209-214 | storing a displayed edge gives the stored edge back |
| Indexing.MstEdgesDisplay | Frontend_ttcsn/ga-mst-fe/src/App.jsx:209-214 | no result gives no edges. Otherwise there is one displayed edge per result edge, each stored back as that edge, and zero-based display is the identity |
| RunRequest.Assemble | Frontend_ttcsn/ga-mst-fe/src/App.jsx:122-172 | a payload is built only from five accepted fields and accepted edges, read with the parsed vertex count |
| RunRequest.BuildRunRequest | Frontend_ttcsn/ga-mst-fe/src/App.jsx:122-172 | a built payload is valid: counts at least 1, rates in [0, 1], at least one edge, all inside the graph. Each value is the field's `parseNumber` result with its label and options, and the edges are those parsed with the vertex count |
| RunRequest.AssembledPayloadValid | Frontend_ttcsn/ga-mst-fe/src/App.jsx:122-172 | fields that meet their options plus accepted edges give a valid payload |
| RunRequest.FirstFailureReported | Frontend_ttcsn/ga-mst-fe/src/App.jsx:122-158 | the first failing field, in the order vertex count, population size, max generations, crossover rate, mutation rate, is the error shown, whatever follows. With all five accepted, the run goes ahead exactly when the edge text is accepted, and otherwise shows that text's error |
| EdgeExamples.TwoLinesZeroBased | Frontend_ttcsn/ga-mst-fe/src/App.jsx:54-111 | `"0 1 2\n0 2 3"`, three vertices, zero-based: both edges, in order, as typed |
| EdgeExamples.OneLineOneBased | Frontend_ttcsn/ga-mst-fe/src/App.jsx:98-106 | `"1 2 5"`, two vertices, one-based: stored as the edge from 0 to 1 |
| EdgeExamples.VertexOutOfRange | Frontend_ttcsn/ga-mst-fe/src/App.jsx:87-95 | `"0 5 1"`, three vertices: line 1 is out of the range 0 to 2 |
| EdgeExamples.NegativeVertexOutOfRange | Frontend_ttcsn/ga-mst-fe/src/App.jsx:87-95 | `"-1 0 2"`, three vertices, zero-based: line 1 is out of the range 0 to 2 |
| EdgeExamples.LeadingCommaReadsZero | Frontend_ttcsn/ga-mst-fe/src/App.jsx:68-78 | `",1 2"`: the leading comma leaves an empty first token, which `Number` reads as 0, so the line is accepted as the edge from 0 to 1 |
| EdgeExamples.TooFewNumbers | Frontend_ttcsn/ga-mst-fe/src/App.jsx:68-74 | `"1 2"`: line 1 does not hold three numbers |

## Left out

- Network and I/O in `handleRunClick` are not modelled: the `fetch` call, the response status handling, `console.log` and the `loading` flag (App.jsx:174-204). They are side effects with no invariant in the code.
- `Frontend_ttcsn/ga-mst-fe/src/services/gaService.js` is not part of this model; it holds only HTTP wrappers.
- `Frontend_ttcsn/ga-mst-fe/src/MstGraph.jsx` is not part of this model; its substance is floating-point trigonometric layout and SVG drawing.
- React state, `setError`/`setResult` and the JSX page are not modelled. An error is returned as a value instead of being stored in state.
- The wording of error messages is not modelled. Each error keeps what its message names: the field label, or the line position, and the fault with the range bounds.
- `Number(string)` is modelled by a decimal grammar after the JavaScript white-space trim: sign, digits, point, digits, exponent. An empty or blank text is 0, as in JavaScript, so a line such as `",1 2"` reads its empty first token as 0. Not modelled: hexadecimal, octal and binary literals, `Infinity`, and rounding to 64-bit floating point. Values are exact reals. Such a literal reads as `NaN` in the model, so a line such as `"0 1 Infinity"` or `"0x1 0 2"` is rejected as not numeric where the application accepts it, and `"Infinity"` in a rate field is reported as not a number where the application reports it above the maximum.
- The indexing setting is modelled as two values. Any setting other than `"zero"` behaves as one-based, as the `else` branch of the source does.
- The payload's counts are stored as integers, the floor of the accepted value. They are accepted only when integral, so nothing is lost.
- A run-history accumulator is not modelled: no such code exists in App.jsx.
