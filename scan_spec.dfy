/** The token recogniser of the Python external scanner (`scanner_scan`,
    internal/python/patch/scanner.c:151-360) as pure functions over the input and
    the lexer's state. `PythonScanner.Scanner.Scan` is proved to compute `Scan`,
    and module ScanLemmas proves what the recogniser promises about it.

    The lexer is the tree-sitter `TSLexer`: a position in a sequence of code
    points, `lookahead` (0 at the end of the input), `advance` (which, when it
    skips, also moves the start of the token), `mark_end` and `result_symbol`. */
module ScanSpec {
  import opened Delimiters

  type u16 = x: int | 0 <= x < 0x1_0000
  type u32 = x: int | 0 <= x < 0x1_0000_0000

  // The external tokens, in the order of `enum TokenType`.
  const Newline := 0
  const Indent := 1
  const Dedent := 2
  const StringStart := 3
  const StringContent := 4
  const StringEnd := 5

  const TokenCount := 6

  /** The state of a `TSLexer` that the scanner can see or change. */
  datatype LexState = LexState(pos: nat, tokenStart: nat, markedEnd: nat, resultSymbol: int)

  /** The two stacks, as sequences with the top last. */
  datatype Stacks = Stacks(indents: seq<u16>, delimiters: seq<Delimiter>)

  /** What one call of the scanner leaves behind: its return value, the lexer and the stacks. */
  datatype ScanResult = ScanResult(found: bool, lex: LexState, stacks: Stacks)

  /** `lookahead`: the code point at the position, 0 at the end of the input. */
  function Lookahead(input: seq<int>, l: LexState): (c: int)
    ensures l.pos < |input| ==> c == input[l.pos]
    ensures c != 0 ==> l.pos < |input|
  {
    if l.pos < |input| then input[l.pos] else 0
  }

  /** `advance`: one code point forward; nothing happens at the end of the input. */
  function Advance(input: seq<int>, l: LexState, skip: bool): (r: LexState)
    ensures r.markedEnd == l.markedEnd && r.resultSymbol == l.resultSymbol
    ensures l.pos < |input| ==> r.pos == l.pos + 1 && r.tokenStart == (if skip then r.pos else l.tokenStart)
    ensures l.pos >= |input| ==> r == l
  {
    if l.pos < |input| then
      l.(pos := l.pos + 1, tokenStart := if skip then l.pos + 1 else l.tokenStart)
    else l
  }

  /** `mark_end`: the token ends where the lexer stands; nothing else moves. */
  function MarkEnd(l: LexState): (r: LexState)
    ensures r.markedEnd == l.pos
    ensures r.pos == l.pos && r.tokenStart == l.tokenStart && r.resultSymbol == l.resultSymbol
  {
    l.(markedEnd := l.pos)
  }

  function SetSymbol(l: LexState, symbol: int): LexState {
    l.(resultSymbol := symbol)
  }

  /** uint32 arithmetic of `indent_length`. */
  function Wrap32(x: nat): u32 {
    x % 0x1_0000_0000
  }

  /** The conversion `(int32_t)indent_length`. */
  function ToInt32(x: u32): int {
    if x < 0x8000_0000 then x else x - 0x1_0000_0000
  }

  // ---------------------------------------------------------------- string contents (152-220)

  /** How the string-content loop ends: by returning, possibly after popping the
      delimiter, or by reaching a zero lookahead, after which scanning goes on. */
  datatype ContentOutcome =
    | Returned(found: bool, lex: LexState, popped: bool)
    | Exhausted(lex: LexState)

  /** One pass of the body of the string-content loop (lines 157-218): either the
      loop goes on from `next` with content seen, or the scan returns. */
  datatype ContentStep = Continue(next: LexState) | Stop(outcome: ContentOutcome)

  function ContentStepOf(input: seq<int>, d: Delimiter, l: LexState, hasContent: bool): (s: ContentStep)
    requires Lookahead(input, l) != 0
    ensures s.Continue? ==> s.next.pos > l.pos
    ensures s.Stop? ==> s.outcome.Returned?
    ensures s.Stop? && s.outcome.popped ==> s.outcome.found && s.outcome.lex.resultSymbol == StringEnd
  {
    var la := Lookahead(input, l);
    var endChar := EndCharacter(d);
    if la == '{' as int && IsFormat(d) then
      var l1 := Advance(input, MarkEnd(l), false);
      if Lookahead(input, l1) == '{' as int then Continue(Advance(input, Advance(input, l1, false), false))
      else Stop(Returned(hasContent, SetSymbol(l1, StringContent), false))
    else if la == '\\' as int then
      if IsRaw(d) then Continue(Advance(input, Advance(input, l, false), false))
      else if IsBytes(d) then
        var l1 := Advance(input, MarkEnd(l), false);
        var la1 := Lookahead(input, l1);
        if la1 == 'N' as int || la1 == 'u' as int || la1 == 'U' as int then
          Continue(Advance(input, Advance(input, l1, false), false))
        else Stop(Returned(hasContent, SetSymbol(l1, StringContent), false))
      else Stop(Returned(hasContent, SetSymbol(MarkEnd(l), StringContent), false))
    else if la == endChar then
      if IsTriple(d) then
        var l1 := Advance(input, MarkEnd(l), false);
        if Lookahead(input, l1) == endChar then
          var l2 := Advance(input, l1, false);
          if Lookahead(input, l2) == endChar then
            if hasContent then Stop(Returned(true, SetSymbol(l2, StringContent), false))
            else Stop(Returned(true, SetSymbol(MarkEnd(Advance(input, l2, false)), StringEnd), true))
          else Continue(Advance(input, l2, false))
        else Continue(Advance(input, l1, false))
      else if hasContent then Stop(Returned(true, MarkEnd(SetSymbol(l, StringContent)), false))
      else Stop(Returned(true, MarkEnd(SetSymbol(Advance(input, l, false), StringEnd)), true))
    else if la == '\n' as int && hasContent && !IsTriple(d) then Stop(Returned(false, l, false))
    else Continue(Advance(input, l, false))
  }

  /** The `while (lexer->lookahead)` loop of lines 156-219 inside a string opened by
      `d`; `hasContent` says whether anything has been consumed yet. */
  function ContentLoop(input: seq<int>, d: Delimiter, l: LexState, hasContent: bool): (r: ContentOutcome)
    ensures r.Exhausted? ==> Lookahead(input, r.lex) == 0
    ensures r.Returned? && r.popped ==> r.found && r.lex.resultSymbol == StringEnd
    decreases |input| - l.pos
  {
    if Lookahead(input, l) == 0 then Exhausted(l)
    else match ContentStepOf(input, d, l, hasContent)
      case Continue(l1) => ContentLoop(input, d, l1, true)
      case Stop(outcome) => outcome
  }

  // ---------------------------------------------------------------- layout (222-267)

  /** The inner `while` of the comment branch: up to the end of the line or input. */
  function SkipComment(input: seq<int>, l: LexState): (r: LexState)
    ensures l.pos <= r.pos && (l.pos <= |input| ==> r.pos <= |input|)
    ensures r.markedEnd == l.markedEnd && r.resultSymbol == l.resultSymbol
    ensures Lookahead(input, l) != 0 && Lookahead(input, l) != '\n' as int ==> r.pos > l.pos
    ensures r.pos == l.pos ==> r == l
    ensures r.pos > l.pos ==> r.tokenStart == r.pos
    decreases |input| - l.pos
  {
    var la := Lookahead(input, l);
    if la != 0 && la != '\n' as int then SkipComment(input, Advance(input, l, true)) else l
  }

  /** How the `for (;;)` loop of lines 227-267 ends: a backslash not followed by
      white space makes the scan fail; otherwise it stops with the measured state. */
  datatype LayoutOutcome =
    | LayoutFailed(lex: LexState)
    | LayoutDone(lex: LexState, foundEndOfLine: bool, indentLength: u32, firstCommentIndent: int)

  /** One pass of the layout loop's body: either it goes on with new values of
      `found_end_of_line`, `indent_length` and `first_comment_indent_length`, or it ends. */
  datatype LayoutStep =
    | Next(lex: LexState, foundEndOfLine: bool, indentLength: u32, firstCommentIndent: int)
    | Finish(outcome: LayoutOutcome)

  function LayoutStepOf(input: seq<int>, isSpace: int -> bool, l: LexState,
                        foundEndOfLine: bool, indent: u32, firstComment: int): (s: LayoutStep)
    ensures s.Next? ==> s.lex.pos > l.pos
    ensures s.Finish? ==> Stopped(input, isSpace, s.outcome)
  {
    var la := Lookahead(input, l);
    if la == '\n' as int then Next(Advance(input, l, true), true, 0, firstComment)
    else if la == ' ' as int then Next(Advance(input, l, true), foundEndOfLine, Wrap32(indent + 1), firstComment)
    else if la == '\r' as int then Next(Advance(input, l, true), foundEndOfLine, 0, firstComment)
    else if la == '\t' as int then Next(Advance(input, l, true), foundEndOfLine, Wrap32(indent + 8), firstComment)
    else if la == '#' as int then
      var fc := if firstComment == -1 then ToInt32(indent) else firstComment;
      Next(Advance(input, SkipComment(input, l), true), foundEndOfLine, 0, fc)
    else if la == '\\' as int then
      var l1 := Advance(input, l, true);
      if isSpace(Lookahead(input, l1)) then Next(Advance(input, l1, true), foundEndOfLine, indent, firstComment)
      else Finish(LayoutFailed(l1))
    else if la == 0x0C then  // form feed
      Next(Advance(input, l, true), foundEndOfLine, 0, firstComment)
    else if la == 0 then Finish(LayoutDone(l, true, 0, firstComment))
    else Finish(LayoutDone(l, foundEndOfLine, indent, firstComment))
  }

  /** Why the layout loop ends: it succeeds at a code point that is none of newline,
      space, carriage return, tab, `#`, backslash and form feed (0 included, the end
      of the input), or fails right after a backslash that white space does not follow. */
  predicate Stopped(input: seq<int>, isSpace: int -> bool, out: LayoutOutcome) {
    match out
    case LayoutDone(l, _, _, _) =>
      var la := Lookahead(input, l);
      la != '\n' as int && la != ' ' as int && la != '\r' as int && la != '\t' as int
      && la != '#' as int && la != '\\' as int && la != 0x0C
    case LayoutFailed(l) =>
      0 < l.pos <= |input| && input[l.pos - 1] == '\\' as int && !isSpace(Lookahead(input, l))
  }

  /** The `for (;;)` loop of lines 227-267. */
  function LayoutLoop(input: seq<int>, isSpace: int -> bool, l: LexState,
                      foundEndOfLine: bool, indent: u32, firstComment: int): (out: LayoutOutcome)
    ensures Stopped(input, isSpace, out)
    decreases |input| - l.pos
  {
    match LayoutStepOf(input, isSpace, l, foundEndOfLine, indent, firstComment)
    case Next(l1, eol, indent1, fc) => LayoutLoop(input, isSpace, l1, eol, indent1, fc)
    case Finish(outcome) => outcome
  }

  // ---------------------------------------------------------------- string start (302-357)

  /** The prefix-letter loop of lines 306-318: f/F, r/R, b/B add their flag, u/U is
      accepted without one. Gives the lexer, the flags and `has_flags`. */
  function PrefixLoop(input: seq<int>, l: LexState, d: Delimiter, hasFlags: bool): (r: (LexState, Delimiter, bool))
    ensures l.pos <= r.0.pos && !IsPrefixLetter(Lookahead(input, r.0))
    ensures r.2 <==> hasFlags || r.0.pos > l.pos
    decreases |input| - l.pos
  {
    var la := Lookahead(input, l);
    if la == 0 then (l, d, hasFlags)
    else if la == 'f' as int || la == 'F' as int then PrefixLoop(input, Advance(input, l, false), WithFormat(d), true)
    else if la == 'r' as int || la == 'R' as int then PrefixLoop(input, Advance(input, l, false), WithRaw(d), true)
    else if la == 'b' as int || la == 'B' as int then PrefixLoop(input, Advance(input, l, false), WithBytes(d), true)
    else if la != 'u' as int && la != 'U' as int then (l, d, hasFlags)
    else PrefixLoop(input, Advance(input, l, false), d, true)
  }

  /** The string prefix letters of lines 307-314. */
  predicate IsPrefixLetter(c: int) {
    c == 'f' as int || c == 'F' as int || c == 'r' as int || c == 'R' as int
    || c == 'b' as int || c == 'B' as int || c == 'u' as int || c == 'U' as int
  }

  /** Lines 320-348: an opening back quote, or one or three single or double quotes. */
  function OpenQuote(input: seq<int>, l: LexState, d: Delimiter): (r: (LexState, Delimiter))
    ensures r.0.tokenStart == l.tokenStart && r.0.resultSymbol == l.resultSymbol
    ensures l.pos <= r.0.pos <= l.pos + 3
  {
    var la := Lookahead(input, l);
    if la == BackQuoteChar then
      (MarkEnd(Advance(input, l, false)), SetEndCharacter(d, BackQuoteChar))
    else if la == SingleQuoteChar || la == DoubleQuoteChar then
      var d1 := SetEndCharacter(d, la);
      var l1 := MarkEnd(Advance(input, l, false));
      if Lookahead(input, l1) == la then
        var l2 := Advance(input, l1, false);
        if Lookahead(input, l2) == la then (MarkEnd(Advance(input, l2, false)), WithTriple(d1))
        else (l2, d1)
      else (l1, d1)
    else (l, d)
  }

  /** Lines 303-356, entered when no comment was seen and STRING_START is valid. The
      flags start at 0: the source reads an uninitialised `Delimiter delimiter;`. */
  function StringStartScan(input: seq<int>, st: Stacks, l: LexState): (r: ScanResult)
    ensures r.stacks.indents == st.indents
    ensures !r.found ==> r.stacks == st
    ensures r.found ==> r.lex.resultSymbol == StringStart && |r.stacks.delimiters| == |st.delimiters| + 1
  {
    var (l1, d1, _) := PrefixLoop(input, l, 0, false);
    var (l2, d2) := OpenQuote(input, l1, d1);
    if EndCharacter(d2) != 0 then
      ScanResult(true, SetSymbol(l2, StringStart), st.(delimiters := st.delimiters + [d2]))
    else ScanResult(false, l2, st)
  }

  /** Lines 303-356 exactly as written: the flags start from whatever value
      `garbage` the uninitialised `Delimiter delimiter;` happens to hold.
      `StringStartScan` is this with `garbage` 0. */
  function StringStartScanFrom(input: seq<int>, st: Stacks, l: LexState, garbage: Delimiter): (r: ScanResult)
    ensures r.stacks.indents == st.indents
    ensures !r.found ==> r.stacks == st
    ensures r.found ==> r.lex.resultSymbol == StringStart && |r.stacks.delimiters| == |st.delimiters| + 1
  {
    var (l1, d1, _) := PrefixLoop(input, l, garbage, false);
    var (l2, d2) := OpenQuote(input, l1, d1);
    if EndCharacter(d2) != 0 then
      ScanResult(true, SetSymbol(l2, StringStart), st.(delimiters := st.delimiters + [d2]))
    else ScanResult(false, l2, st)
  }

  // ---------------------------------------------------------------- the whole scan

  /** Lines 269-359: the token chosen once the layout has been measured. */
  function Decide(input: seq<int>, valid: seq<bool>, st: Stacks, l: LexState,
                  foundEndOfLine: bool, indent: u32, firstComment: int): (r: ScanResult)
    requires |valid| >= TokenCount
    ensures !r.found ==> r.stacks == st
    ensures r.found ==> 0 <= r.lex.resultSymbol < TokenCount && valid[r.lex.resultSymbol]
    ensures r.found && r.lex.resultSymbol != StringStart ==> r.stacks.delimiters == st.delimiters
    ensures r.stacks.indents != st.indents ==> r.found && (r.lex.resultSymbol == Indent || r.lex.resultSymbol == Dedent)
  {
    var n := |st.indents|;
    if foundEndOfLine && n != 0 && valid[Indent] && indent > st.indents[n - 1] then
      ScanResult(true, SetSymbol(l, Indent), st.(indents := st.indents + [indent % 0x1_0000]))
    else if foundEndOfLine && n != 0 && valid[Dedent] && indent < st.indents[n - 1] && firstComment < st.indents[n - 1] then
      ScanResult(true, SetSymbol(l, Dedent), st.(indents := st.indents[..n - 1]))
    else if foundEndOfLine && valid[Newline] then
      ScanResult(true, SetSymbol(l, Newline), st)
    else if firstComment == -1 && valid[StringStart] then
      StringStartScan(input, st, l)
    else ScanResult(false, l, st)
  }

  /** Lines 222-359: everything after the string-content branch. */
  function AfterContent(input: seq<int>, isSpace: int -> bool, valid: seq<bool>, st: Stacks, l: LexState): (r: ScanResult)
    requires |valid| >= TokenCount
    ensures !r.found ==> r.stacks == st
    ensures r.found ==> 0 <= r.lex.resultSymbol < TokenCount && valid[r.lex.resultSymbol]
    ensures r.found && r.lex.resultSymbol != StringStart ==> r.stacks.delimiters == st.delimiters
    ensures r.stacks.indents != st.indents ==> r.found && (r.lex.resultSymbol == Indent || r.lex.resultSymbol == Dedent)
  {
    match LayoutLoop(input, isSpace, MarkEnd(l), false, 0, -1)
    case LayoutFailed(l1) => ScanResult(false, l1, st)
    case LayoutDone(l1, eol, indent, fc) => Decide(input, valid, st, l1, eol, indent, fc)
  }

  /** True when the scan starts inside a string (the guard of line 152). */
  predicate InString(valid: seq<bool>, st: Stacks)
    requires |valid| >= TokenCount
  {
    valid[StringContent] && !valid[Indent] && |st.delimiters| != 0
  }

  /** `scanner_scan`. */
  function Scan(input: seq<int>, isSpace: int -> bool, valid: seq<bool>, st: Stacks, l: LexState): (r: ScanResult)
    requires |valid| >= TokenCount
    ensures !r.found ==> r.stacks == st
    ensures r.stacks.indents != st.indents ==> r.found && (r.lex.resultSymbol == Indent || r.lex.resultSymbol == Dedent)
  {
    if InString(valid, st) then
      var n := |st.delimiters|;
      match ContentLoop(input, st.delimiters[n - 1], l, false)
      case Returned(found, l1, popped) =>
        ScanResult(found, l1, if popped then st.(delimiters := st.delimiters[..n - 1]) else st)
      case Exhausted(l1) => AfterContent(input, isSpace, valid, st, l1)
    else AfterContent(input, isSpace, valid, st, l)
  }
}
