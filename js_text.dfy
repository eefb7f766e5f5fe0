/**
 * The JavaScript string operations the form code relies on: `trim()`,
 * `split("\n")`, `replace(",", ".")` with a string pattern, and
 * `split(/[\s,]+/)`.
 */
module JsText {

  /** The characters JavaScript's `trim()` removes and its regular-expression class `\s` matches:
      WhiteSpace and LineTerminator of ECMAScript. */
  predicate IsWhitespace(c: char) {
    c == '\t' || c == '\n' || c == '\U{000B}' || c == '\U{000C}' || c == '\r' || c == ' '
    || c == '\U{00A0}' || c == '\U{1680}' || ('\U{2000}' <= c <= '\U{200A}')
    || c == '\U{2028}' || c == '\U{2029}' || c == '\U{202F}' || c == '\U{205F}'
    || c == '\U{3000}' || c == '\U{FEFF}'
  }

  /** The characters of the class `[\s,]`. */
  predicate IsSeparator(c: char) {
    IsWhitespace(c) || c == ','
  }

  predicate AllWhitespace(s: string) {
    forall i :: 0 <= i < |s| ==> IsWhitespace(s[i])
  }

  /** Index of the first character of `s` satisfying `p`, or `|s|` when there is none. */
  function FirstWhere(s: string, p: char -> bool): (k: nat)
    ensures k <= |s|
    ensures k < |s| ==> p(s[k])
  {
    if s == [] then 0
    else if p(s[0]) then 0
    else 1 + FirstWhere(s[1..], p)
  }

  /** No character before `FirstWhere(s, p)` satisfies `p`. */
  lemma {:induction false} FirstWhereSkips(s: string, p: char -> bool)
    ensures forall i :: 0 <= i < FirstWhere(s, p) ==> !p(s[i])
  {
    if s != [] && !p(s[0]) {
      FirstWhereSkips(s[1..], p);
      assert forall i :: 1 <= i < |s| ==> s[i] == s[1..][i - 1];
    }
  }

  /** Length of the longest prefix of `s` whose characters all satisfy `p`. */
  function SpanWhere(s: string, p: char -> bool): (n: nat)
    ensures n <= |s|
    ensures n < |s| ==> !p(s[n])
  {
    if s == [] || !p(s[0]) then 0
    else 1 + SpanWhere(s[1..], p)
  }

  /** Every character before `SpanWhere(s, p)` satisfies `p`. */
  lemma {:induction false} SpanWhereHolds(s: string, p: char -> bool)
    ensures forall i :: 0 <= i < SpanWhere(s, p) ==> p(s[i])
  {
    if s != [] && p(s[0]) {
      SpanWhereHolds(s[1..], p);
      assert forall i :: 1 <= i < |s| ==> s[i] == s[1..][i - 1];
    }
  }

  /** The span of `p` over `a + b` stops exactly at the end of `a` when `b` does not start with a `p` character. */
  lemma {:induction false} SpanWhereStops(a: string, b: string, p: char -> bool)
    requires forall i :: 0 <= i < |a| ==> p(a[i])
    requires b != [] ==> !p(b[0])
    ensures SpanWhere(a + b, p) == |a|
  {
    if a == [] {
      assert a + b == b;
    } else {
      assert (a + b)[1..] == a[1..] + b;
      SpanWhereStops(a[1..], b, p);
    }
  }

  /** Length of the longest suffix of `s` whose characters all satisfy `p`. */
  function BackSpanWhere(s: string, p: char -> bool): (n: nat)
    ensures n <= |s|
    ensures n < |s| ==> !p(s[|s| - n - 1])
  {
    if s == [] || !p(s[|s| - 1]) then 0
    else 1 + BackSpanWhere(s[..|s| - 1], p)
  }

  /** Every character from `|s| - BackSpanWhere(s, p)` on satisfies `p`. */
  lemma {:induction false} BackSpanWhereHolds(s: string, p: char -> bool)
    ensures forall i :: |s| - BackSpanWhere(s, p) <= i < |s| ==> p(s[i])
  {
    if s != [] && p(s[|s| - 1]) {
      BackSpanWhereHolds(s[..|s| - 1], p);
    }
  }

  /** `String.prototype.trim`: `s` without its leading and trailing white space. */
  function Trim(s: string): (r: string)
    ensures r == [] <==> AllWhitespace(s)
    ensures r != [] ==> !IsWhitespace(r[0]) && !IsWhitespace(r[|r| - 1])
  {
    var t := s[SpanWhere(s, IsWhitespace)..];
    SpanWhereHolds(s, IsWhitespace);
    BackSpanWhereHolds(t, IsWhitespace);
    t[..|t| - BackSpanWhere(t, IsWhitespace)]
  }

  /** Trimming removes white space and nothing else: `s` is the trimmed text between two white-space pads. */
  lemma {:induction false} TrimRemovesOnlyWhitespace(s: string)
    ensures SpanWhere(s, IsWhitespace) + |Trim(s)| <= |s|
    ensures s == s[..SpanWhere(s, IsWhitespace)] + Trim(s) + s[SpanWhere(s, IsWhitespace) + |Trim(s)|..]
    ensures AllWhitespace(s[..SpanWhere(s, IsWhitespace)])
    ensures AllWhitespace(s[SpanWhere(s, IsWhitespace) + |Trim(s)|..])
  {
    var i := SpanWhere(s, IsWhitespace);
    var j := i + |s[i..]| - BackSpanWhere(s[i..], IsWhitespace);
    TrimIsSlice(s, i, j);
    assert i + |Trim(s)| == j;
    Slices(s, i, j);
    LeadingPad(s);
    TrailingPadOfTrim(s, i, j);
  }

  lemma {:induction false} TrimIsSlice(s: string, i: nat, j: nat)
    requires i == SpanWhere(s, IsWhitespace)
    requires j == i + |s[i..]| - BackSpanWhere(s[i..], IsWhitespace)
    ensures i <= j <= |s| && Trim(s) == s[i..j]
  {
    SliceOfSlice(s, i, j);
  }

  lemma {:induction false} TrailingPadOfTrim(s: string, i: nat, j: nat)
    requires i == SpanWhere(s, IsWhitespace)
    requires j == i + |s[i..]| - BackSpanWhere(s[i..], IsWhitespace)
    ensures AllWhitespace(s[j..])
  {
    TrailingPad(s[i..]);
    SuffixOfSlice(s, i, j);
  }

  lemma {:induction false} Slices<T>(s: seq<T>, i: nat, j: nat)
    requires i <= j <= |s|
    ensures s == s[..i] + s[i..j] + s[j..]
  {
  }

  lemma {:induction false} SliceOfSlice<T>(s: seq<T>, i: nat, j: nat)
    requires i <= j <= |s|
    ensures s[i..][..j - i] == s[i..j]
  {
  }

  lemma {:induction false} SuffixOfSlice<T>(s: seq<T>, i: nat, j: nat)
    requires i <= j <= |s|
    ensures s[i..][j - i..] == s[j..]
  {
  }

  lemma {:induction false} LeadingPad(s: string)
    ensures AllWhitespace(s[..SpanWhere(s, IsWhitespace)])
  {
    SpanWhereHolds(s, IsWhitespace);
  }

  lemma {:induction false} TrailingPad(t: string)
    ensures AllWhitespace(t[|t| - BackSpanWhere(t, IsWhitespace)..])
  {
    BackSpanWhereHolds(t, IsWhitespace);
  }

  /** A text that neither starts nor ends with white space is its own trim. */
  lemma {:induction false} TrimKeepsUnpadded(s: string)
    requires s != [] ==> !IsWhitespace(s[0]) && !IsWhitespace(s[|s| - 1])
    ensures Trim(s) == s
  {
    assert SpanWhere(s, IsWhitespace) == 0;
    assert s[0..] == s;
    assert BackSpanWhere(s, IsWhitespace) == 0;
    assert s[..|s|] == s;
  }

  predicate IsComma(c: char) {
    c == ','
  }

  /** `s.replace(",", ".")`: only the first comma, if any, becomes a dot. */
  function ReplaceFirstComma(s: string): (r: string)
    ensures |r| == |s|
    ensures forall i :: 0 <= i < |s| ==>
              r[i] == if i == FirstWhere(s, IsComma) then '.' else s[i]
  {
    var k := FirstWhere(s, IsComma);
    if k == |s| then s else s[..k] + "." + s[k + 1..]
  }

  /** Only the first comma changes: the text before it has none, the text after it is kept as is. */
  lemma {:induction false} ReplaceFirstCommaAt(a: string, b: string)
    requires ',' !in a
    ensures ReplaceFirstComma(a + [','] + b) == a + ['.'] + b
  {
    var s := a + [','] + b;
    assert s[|a|] == ',';
    assert forall i :: 0 <= i < |a| ==> s[i] == a[i];
    FirstWhereSkips(s, IsComma);
    assert FirstWhere(s, IsComma) == |a|;
    assert s[..|a|] == a && s[|a| + 1..] == b;
  }

  predicate IsNewline(c: char) {
    c == '\n'
  }

  /** Number of line feeds in `s`. */
  function Newlines(s: string): nat {
    if s == [] then 0 else (if IsNewline(s[0]) then 1 else 0) + Newlines(s[1..])
  }

  /** `s.split("\n")`: the pieces between the line feeds, one more than there are line feeds. */
  function SplitLines(s: string): (r: seq<string>)
    ensures |r| == Newlines(s) + 1
    decreases |s|
  {
    var k := FirstWhere(s, IsNewline);
    if k == |s| then
      FirstWhereSkips(s, IsNewline);
      NewlinesAbsent(s);
      [s]
    else
      NewlinesAt(s, k);
      [s[..k]] + SplitLines(s[k + 1..])
  }

  lemma {:induction false} NewlinesAbsent(s: string)
    requires forall i :: 0 <= i < |s| ==> !IsNewline(s[i])
    ensures Newlines(s) == 0
  {
    if s != [] {
      NewlinesAbsent(s[1..]);
    }
  }

  /** Splitting `s` at its first line feed, index `k`, removes one line feed. */
  lemma {:induction false} NewlinesAt(s: string, k: nat)
    requires k == FirstWhere(s, IsNewline) && k < |s|
    ensures Newlines(s) == Newlines(s[k + 1..]) + 1
  {
    if k > 0 {
      assert s[1..][k..] == s[k + 1..];
      NewlinesAt(s[1..], k - 1);
    }
  }

  /** The inverse of `SplitLines`: the pieces joined with line feeds between them. */
  function JoinLines(parts: seq<string>): string
    requires |parts| >= 1
  {
    if |parts| == 1 then parts[0] else parts[0] + "\n" + JoinLines(parts[1..])
  }

  /** One step of `SplitLines`: the text before the first line feed, then the pieces after it. */
  lemma {:induction false} SplitLinesUnfold(s: string, k: nat)
    requires k == FirstWhere(s, IsNewline) && k < |s|
    ensures SplitLines(s) == [s[..k]] + SplitLines(s[k + 1..])
  {
  }

  /** `split` loses nothing: joining its pieces gives the text back. */
  lemma {:induction false} JoinSplitLines(s: string)
    ensures JoinLines(SplitLines(s)) == s
    decreases |s|
  {
    var k := FirstWhere(s, IsNewline);
    if k < |s| {
      var rest := SplitLines(s[k + 1..]);
      SplitLinesUnfold(s, k);
      JoinLinesCons(s[..k], rest);
      JoinSplitLines(s[k + 1..]);
      RejoinAt(s, k);
    }
  }

  lemma {:induction false} JoinLinesCons(head: string, rest: seq<string>)
    requires |rest| >= 1
    ensures JoinLines([head] + rest) == head + "\n" + JoinLines(rest)
  {
    assert ([head] + rest)[1..] == rest;
  }

  /** A text is its part before a line feed, the line feed and its part after it. */
  lemma {:induction false} RejoinAt(s: string, k: nat)
    requires k < |s| && IsNewline(s[k])
    ensures s[..k] + "\n" + s[k + 1..] == s
  {
    assert s[k] == '\n';
    assert s == s[..k] + [s[k]] + s[k + 1..];
  }

  /** Dropping a prefix of a concatenation that lies inside its left part. */
  lemma {:induction false} DropFromConcat<T>(a: seq<T>, b: seq<T>, j: nat)
    requires j <= |a|
    ensures (a + b)[j..] == a[j..] + b
  {
  }

  /** The first line feed of `x + "\n" + y` is the first one of `x`, or the added one. */
  lemma {:induction false} FirstNewlineOfAppend(x: string, y: string)
    ensures FirstWhere(x + "\n" + y, IsNewline) == FirstWhere(x, IsNewline)
  {
    var s := x + "\n" + y;
    var k := FirstWhere(x, IsNewline);
    assert forall i :: 0 <= i < |x| ==> s[i] == x[i];
    FirstWhereSkips(x, IsNewline);
    FirstWhereSkips(s, IsNewline);
    assert k < |s| && IsNewline(s[k]);
  }

  /** The two sides of the line feed put between `x` and `y`. */
  lemma {:induction false} JointSlices(x: string, y: string)
    ensures (x + "\n" + y)[..|x|] == x && (x + "\n" + y)[|x| + 1..] == y
  {
  }

  /** Cutting `x + "\n" + y` inside `x`. */
  lemma {:induction false} SlicesBeforeJoint(x: string, y: string, k: nat)
    requires k < |x|
    ensures (x + "\n" + y)[..k] == x[..k]
    ensures (x + "\n" + y)[k + 1..] == x[k + 1..] + "\n" + y
  {
    DropFromConcat(x + "\n", y, k + 1);
    DropFromConcat(x, "\n", k + 1);
  }

  /** Splitting at a line feed that was put between two texts splits each text on its own. */
  lemma {:induction false} SplitLinesAppend(x: string, y: string)
    ensures SplitLines(x + "\n" + y) == SplitLines(x) + SplitLines(y)
    decreases |x|
  {
    var s := x + "\n" + y;
    var k := FirstWhere(x, IsNewline);
    FirstNewlineOfAppend(x, y);
    SplitLinesUnfold(s, k);
    if k == |x| {
      JointSlices(x, y);
    } else {
      var tail := x[k + 1..];
      SlicesBeforeJoint(x, y, k);
      SplitLinesAppend(tail, y);
      SplitLinesUnfold(x, k);
      var ys := SplitLines(y);
      var ts := SplitLines(tail);
      assert [x[..k]] + (ts + ys) == ([x[..k]] + ts) + ys;
    }
  }

  /** Splitting at two inserted line feeds. */
  lemma {:induction false} SplitLinesOfThree(x: string, m: string, y: string)
    ensures SplitLines(x + "\n" + m + "\n" + y) == SplitLines(x) + (SplitLines(m) + SplitLines(y))
  {
    assert x + "\n" + m + "\n" + y == x + "\n" + (m + "\n" + y);
    SplitLinesAppend(x, m + "\n" + y);
    SplitLinesAppend(m, y);
  }

  /** No piece holds a line feed. */
  lemma {:induction false} SplitLinesHaveNoNewline(s: string)
    ensures forall i, j :: 0 <= i < |SplitLines(s)| && 0 <= j < |SplitLines(s)[i]| ==> !IsNewline(SplitLines(s)[i][j])
    decreases |s|
  {
    var k := FirstWhere(s, IsNewline);
    FirstWhereSkips(s, IsNewline);
    if k < |s| {
      SplitLinesHaveNoNewline(s[k + 1..]);
      SplitLinesUnfold(s, k);
    }
  }

  /** Every piece of a white-space text is white space. */
  lemma {:induction false} SplitLinesOfWhitespace(s: string)
    requires AllWhitespace(s)
    ensures forall i :: 0 <= i < |SplitLines(s)| ==> AllWhitespace(SplitLines(s)[i])
    decreases |s|
  {
    var k := FirstWhere(s, IsNewline);
    if k < |s| {
      SplitLinesOfWhitespace(s[k + 1..]);
      SplitLinesUnfold(s, k);
    }
  }

  /** `s.split(/[\s,]+/)`: the pieces between maximal runs of white space and commas.
      A run at the very start or end yields an empty first or last piece. */
  function Tokens(s: string): (r: seq<string>)
    ensures |r| >= 1
    decreases |s|
  {
    var k := FirstWhere(s, IsSeparator);
    if k == |s| then [s]
    else [s[..k]] + Tokens(s[k + SpanWhere(s[k..], IsSeparator)..])
  }

  predicate NoSeparator(t: string) {
    forall j :: 0 <= j < |t| ==> !IsSeparator(t[j])
  }

  /** No token holds a white-space character or a comma. */
  lemma {:induction false} TokensAreSeparatorFree(s: string)
    ensures forall i :: 0 <= i < |Tokens(s)| ==> NoSeparator(Tokens(s)[i])
    decreases |s|
  {
    var k := FirstWhere(s, IsSeparator);
    FirstWhereSkips(s, IsSeparator);
    if k < |s| {
      var rest := s[k + SpanWhere(s[k..], IsSeparator)..];
      TokensAreSeparatorFree(rest);
      TokensUnfold(s, k, rest);
      assert NoSeparator(s[..k]);
    }
  }

  /** Runs are maximal, so only the first and the last token can be empty. */
  lemma {:induction false} InnerTokensNonEmpty(s: string)
    ensures forall i :: 0 < i < |Tokens(s)| - 1 ==> Tokens(s)[i] != []
    decreases |s|
  {
    var k := FirstWhere(s, IsSeparator);
    if k < |s| {
      var run := SpanWhere(s[k..], IsSeparator);
      var rest := s[k + run..];
      InnerTokensNonEmpty(rest);
      TokensUnfold(s, k, rest);
      if rest != [] {
        assert rest[0] == s[k..][run];
        FirstTokenNonEmpty(rest);
      }
    }
  }

  lemma {:induction false} FirstTokenNonEmpty(s: string)
    requires s != [] && !IsSeparator(s[0])
    ensures Tokens(s)[0] != []
  {
    var k := FirstWhere(s, IsSeparator);
    if k < |s| {
      TokensUnfold(s, k, s[k + SpanWhere(s[k..], IsSeparator)..]);
    }
  }

  /** A stretch that `/[\s,]+/` matches: not empty, white space and commas only. */
  predicate IsSeparatorRun(r: string) {
    r != [] && forall j :: 0 <= j < |r| ==> IsSeparator(r[j])
  }

  /** The separator runs `Tokens` cuts `s` at, in order: one fewer than the tokens. */
  function SeparatorRuns(s: string): (runs: seq<string>)
    ensures |runs| == |Tokens(s)| - 1
    decreases |s|
  {
    var k := FirstWhere(s, IsSeparator);
    if k == |s| then []
    else
      var run := SpanWhere(s[k..], IsSeparator);
      [s[k..k + run]] + SeparatorRuns(s[k + run..])
  }

  /** Pieces joined again with a run between each two: `tokens[0] + runs[0] + tokens[1] + ...`. */
  function Interleave(tokens: seq<string>, runs: seq<string>): string
    requires |tokens| == |runs| + 1
    decreases |runs|
  {
    if runs == [] then tokens[0]
    else tokens[0] + runs[0] + Interleave(tokens[1..], runs[1..])
  }

  /** `Tokens` cuts `s` only at separator runs and keeps everything else: the runs it cuts at are
      non-empty stretches of white space and commas, no token holds a separator, and putting the
      runs back between the tokens gives `s` again. */
  lemma {:induction false} TokensRejoin(s: string)
    ensures forall i :: 0 <= i < |SeparatorRuns(s)| ==> IsSeparatorRun(SeparatorRuns(s)[i])
    ensures forall i :: 0 <= i < |Tokens(s)| ==> NoSeparator(Tokens(s)[i])
    ensures s == Interleave(Tokens(s), SeparatorRuns(s))
    decreases |s|
  {
    TokensAreSeparatorFree(s);
    SeparatorRunsAreRuns(s);
    var k := FirstWhere(s, IsSeparator);
    if k < |s| {
      var run := SpanWhere(s[k..], IsSeparator);
      var rest := s[k + run..];
      TokensRejoin(rest);
      TokensUnfold(s, k, rest);
      SeparatorRunsUnfold(s, k, run);
      InterleaveCons(s[..k], Tokens(rest), s[k..k + run], SeparatorRuns(rest));
      Slices(s, k, k + run);
    }
  }

  lemma {:induction false} SeparatorRunsAreRuns(s: string)
    ensures forall i :: 0 <= i < |SeparatorRuns(s)| ==> IsSeparatorRun(SeparatorRuns(s)[i])
    decreases |s|
  {
    var k := FirstWhere(s, IsSeparator);
    if k < |s| {
      var run := SpanWhere(s[k..], IsSeparator);
      SeparatorRunsAreRuns(s[k + run..]);
      SeparatorRunsUnfold(s, k, run);
      FirstRunIsRun(s, k, run);
      RunsCons(s[k..k + run], SeparatorRuns(s[k + run..]));
    }
  }

  lemma {:induction false} FirstRunIsRun(s: string, k: nat, run: nat)
    requires k == FirstWhere(s, IsSeparator) && k < |s|
    requires run == SpanWhere(s[k..], IsSeparator)
    ensures k + run <= |s| && IsSeparatorRun(s[k..k + run])
  {
    SpanWhereHolds(s[k..], IsSeparator);
    SliceOfSlice(s, k, k + run);
  }

  lemma {:induction false} RunsCons(run: string, runs: seq<string>)
    requires IsSeparatorRun(run)
    requires forall i :: 0 <= i < |runs| ==> IsSeparatorRun(runs[i])
    ensures forall i :: 0 <= i < |[run] + runs| ==> IsSeparatorRun(([run] + runs)[i])
  {
  }

  /** One step of `SeparatorRuns`: the first run, then the runs after it. */
  lemma {:induction false} SeparatorRunsUnfold(s: string, k: nat, run: nat)
    requires k == FirstWhere(s, IsSeparator) && k < |s|
    requires run == SpanWhere(s[k..], IsSeparator)
    ensures k + run <= |s|
    ensures SeparatorRuns(s) == [s[k..k + run]] + SeparatorRuns(s[k + run..])
  {
  }

  lemma {:induction false} InterleaveCons(token: string, tokens: seq<string>, run: string, runs: seq<string>)
    requires |tokens| == |runs| + 1
    ensures Interleave([token] + tokens, [run] + runs) == token + run + Interleave(tokens, runs)
  {
    assert ([token] + tokens)[1..] == tokens;
    assert ([run] + runs)[1..] == runs;
  }

  /** The converse: text built from separator-free pieces and separator runs, with every inner
      piece non-empty, is split by `Tokens` into exactly those pieces. So the split is the only one
      of its kind. */
  lemma {:induction false} TokensOfInterleave(tokens: seq<string>, runs: seq<string>)
    requires |tokens| == |runs| + 1
    requires forall i :: 0 <= i < |tokens| ==> NoSeparator(tokens[i])
    requires forall i :: 0 < i < |tokens| - 1 ==> tokens[i] != []
    requires forall i :: 0 <= i < |runs| ==> IsSeparatorRun(runs[i])
    ensures Tokens(Interleave(tokens, runs)) == tokens
    decreases |runs|
  {
    if runs == [] {
      TokensOfWord(tokens[0]);
    } else {
      var rest := Interleave(tokens[1..], runs[1..]);
      TokensOfInterleave(tokens[1..], runs[1..]);
      RestStartsWithToken(tokens[1..], runs[1..]);
      TokenThenRun(tokens[0], runs[0], rest);
      assert tokens == [tokens[0]] + tokens[1..];
    }
  }

  /** The text rebuilt after a run starts with its first piece, so it never starts with a separator
      unless that piece is the last one and empty. */
  lemma {:induction false} RestStartsWithToken(tokens: seq<string>, runs: seq<string>)
    requires |tokens| == |runs| + 1
    requires NoSeparator(tokens[0])
    requires runs != [] ==> tokens[0] != []
    ensures Interleave(tokens, runs) != [] ==> !IsSeparator(Interleave(tokens, runs)[0])
  {
    if runs != [] {
      assert Interleave(tokens, runs)[0] == tokens[0][0];
    }
  }

  /** One step of `Tokens` on `token + run + rest`: it cuts off `token` and skips the whole run. */
  lemma {:induction false} TokenThenRun(token: string, run: string, rest: string)
    requires NoSeparator(token) && IsSeparatorRun(run)
    requires rest != [] ==> !IsSeparator(rest[0])
    ensures Tokens(token + run + rest) == [token] + Tokens(rest)
  {
    var s := token + run + rest;
    assert s == token + (run + rest);
    FirstWhereAfter(token, run + rest, IsSeparator);
    assert s[|token|..] == run + rest;
    SpanWhereStops(run, rest, IsSeparator);
    assert s[..|token|] == token;
    assert s[|token| + |run|..] == rest;
    TokensUnfold(s, |token|, rest);
  }

  /** The first `p` character of `a + b` is the first of `b`, when `a` has none and `b` starts with one. */
  lemma {:induction false} FirstWhereAfter(a: string, b: string, p: char -> bool)
    requires forall i :: 0 <= i < |a| ==> !p(a[i])
    requires b != [] && p(b[0])
    ensures FirstWhere(a + b, p) == |a|
  {
    if a == [] {
      assert a + b == b;
    } else {
      assert (a + b)[1..] == a[1..] + b;
      FirstWhereAfter(a[1..], b, p);
    }
  }

  /** `s` with every white-space character and comma removed. */
  function WithoutSeparators(s: string): string {
    if s == [] then []
    else (if IsSeparator(s[0]) then [] else [s[0]]) + WithoutSeparators(s[1..])
  }

  function Concat(parts: seq<string>): string {
    if parts == [] then [] else parts[0] + Concat(parts[1..])
  }

  lemma {:induction false} WithoutSeparatorsAppend(a: string, b: string)
    ensures WithoutSeparators(a + b) == WithoutSeparators(a) + WithoutSeparators(b)
  {
    if a == [] {
      assert a + b == b;
    } else {
      assert (a + b)[0] == a[0];
      assert (a + b)[1..] == a[1..] + b;
      WithoutSeparatorsAppend(a[1..], b);
    }
  }

  lemma {:induction false} WithoutSeparatorsKeeps(s: string)
    requires forall i :: 0 <= i < |s| ==> !IsSeparator(s[i])
    ensures WithoutSeparators(s) == s
  {
    if s != [] {
      WithoutSeparatorsKeeps(s[1..]);
    }
  }

  lemma {:induction false} WithoutSeparatorsDrops(s: string)
    requires forall i :: 0 <= i < |s| ==> IsSeparator(s[i])
    ensures WithoutSeparators(s) == []
  {
    if s != [] {
      WithoutSeparatorsDrops(s[1..]);
    }
  }

  /** The tokens hold exactly the non-separator characters of `s`, in order. */
  lemma {:induction false} TokensKeepContent(s: string)
    ensures Concat(Tokens(s)) == WithoutSeparators(s)
    decreases |s|
  {
    var k := FirstWhere(s, IsSeparator);
    if k == |s| {
      KeepsTextBeforeSeparator(s, k);
      assert s[..k] == s;
    } else {
      var run := SpanWhere(s[k..], IsSeparator);
      var rest := s[k + run..];
      TokensKeepContent(rest);
      TokensUnfold(s, k, rest);
      ConcatCons(s[..k], Tokens(rest));
      SkipSeparatorRun(s, k, run);
    }
  }

  /** Removing the separators of `s` keeps the text before its first separator run and drops the run. */
  lemma {:induction false} SkipSeparatorRun(s: string, k: nat, run: nat)
    requires k == FirstWhere(s, IsSeparator) && k < |s|
    requires run == SpanWhere(s[k..], IsSeparator)
    ensures WithoutSeparators(s) == s[..k] + WithoutSeparators(s[k + run..])
  {
    KeepsTextBeforeSeparator(s, k);
    GapIsSeparators(s, k, run);
    Slices(s, k, k + run);
    WithoutSeparatorsOfThree(s[..k], s[k..k + run], s[k + run..]);
  }

  lemma {:induction false} GapIsSeparators(s: string, k: nat, run: nat)
    requires k <= |s| && run == SpanWhere(s[k..], IsSeparator)
    ensures k + run <= |s| && WithoutSeparators(s[k..k + run]) == []
  {
    DropsSeparatorRun(s[k..], run);
    SliceOfSlice(s, k, k + run);
  }

  lemma {:induction false} WithoutSeparatorsOfThree(head: string, gap: string, rest: string)
    ensures WithoutSeparators(head + gap + rest) ==
              WithoutSeparators(head) + WithoutSeparators(gap) + WithoutSeparators(rest)
  {
    WithoutSeparatorsAppend(head + gap, rest);
    WithoutSeparatorsAppend(head, gap);
  }

  /** One step of `Tokens`: the text before the first separator, then the tokens after its run. */
  lemma {:induction false} TokensUnfold(s: string, k: nat, rest: string)
    requires k == FirstWhere(s, IsSeparator) && k < |s|
    requires rest == s[k + SpanWhere(s[k..], IsSeparator)..]
    ensures Tokens(s) == [s[..k]] + Tokens(rest)
  {
  }

  lemma {:induction false} KeepsTextBeforeSeparator(s: string, k: nat)
    requires k == FirstWhere(s, IsSeparator)
    ensures WithoutSeparators(s[..k]) == s[..k]
  {
    FirstWhereSkips(s, IsSeparator);
    WithoutSeparatorsKeeps(s[..k]);
  }

  lemma {:induction false} DropsSeparatorRun(t: string, run: nat)
    requires run == SpanWhere(t, IsSeparator)
    ensures WithoutSeparators(t[..run]) == []
  {
    SpanWhereHolds(t, IsSeparator);
    WithoutSeparatorsDrops(t[..run]);
  }

  lemma {:induction false} ConcatCons(head: string, tail: seq<string>)
    ensures Concat([head] + tail) == head + Concat(tail)
  {
    assert ([head] + tail)[1..] == tail;
  }

  /** A text without separators is a single token. */
  lemma {:induction false} TokensOfWord(x: string)
    requires NoSeparator(x)
    ensures Tokens(x) == [x]
  {
    assert FirstWhere(x, IsSeparator) == |x|;
  }

  /** A single space after a token that is followed by a token ends it. */
  lemma {:induction false} TokensAfterSpace(x: string, y: string)
    requires NoSeparator(x) && y != [] && !IsSeparator(y[0])
    ensures Tokens(x + " " + y) == [x] + Tokens(y)
  {
    var s := x + " " + y;
    assert forall i :: 0 <= i < |x| ==> s[i] == x[i];
    assert s[|x|] == ' ';
    FirstWhereSkips(s, IsSeparator);
    assert FirstWhere(s, IsSeparator) == |x|;
    assert s[|x|..] == " " + y;
    SpanWhereStops(" ", y, IsSeparator);
    assert s[|x| + 1..] == y;
    assert s[..|x|] == x;
    TokensUnfold(s, |x|, y);
  }

  /** A comma at the very start leaves an empty first token. */
  lemma {:induction false} TokensAfterComma(y: string)
    requires y != [] && !IsSeparator(y[0])
    ensures Tokens("," + y) == [[]] + Tokens(y)
  {
    var s := "," + y;
    assert s[0] == ',';
    assert FirstWhere(s, IsSeparator) == 0;
    assert s[0..] == s;
    SpanWhereStops(",", y, IsSeparator);
    assert s[1..] == y;
    TokensUnfold(s, 0, y);
  }

  /** Three words separated by single spaces are three tokens. */
  lemma {:induction false} TokensOfThree(a: string, b: string, c: string)
    requires a != [] && b != [] && c != []
    requires NoSeparator(a) && NoSeparator(b) && NoSeparator(c)
    ensures Tokens(a + " " + b + " " + c) == [a, b, c]
  {
    TokensOfWord(c);
    TokensAfterSpace(b, c);
    assert a + " " + b + " " + c == a + " " + (b + " " + c);
    TokensAfterSpace(a, b + " " + c);
  }

  /** A text without line feeds is one line. */
  lemma {:induction false} SplitLinesOfLine(s: string)
    requires forall i :: 0 <= i < |s| ==> !IsNewline(s[i])
    ensures SplitLines(s) == [s]
  {
    assert FirstWhere(s, IsNewline) == |s|;
  }
}
