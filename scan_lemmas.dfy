/** What the Python external scanner promises about one call of `scanner_scan`
    (internal/python/patch/scanner.c:151-360), proved about `ScanSpec.Scan`, which
    `PythonScanner.Scanner.Scan` computes. */
module ScanLemmas {
  import opened Delimiters
  import opened ScanSpec

  // ---------------------------------------------------------------- string contents

  /** The content loop never moves backwards, never skips (so the token still starts
      where the call began), stays within the input, pops only on its first pass and
      then returns STRING_END, and returns STRING_CONTENT for every other token it
      accepts, ending at or after the starting position, and strictly after it when
      nothing had been consumed on entry. */
  lemma {:induction false} ContentLoopFacts(input: seq<int>, d: Delimiter, l: LexState, hasContent: bool)
    ensures var out := ContentLoop(input, d, l, hasContent);
      && out.lex.pos >= l.pos
      && out.lex.tokenStart == l.tokenStart
      && (l.pos <= |input| ==> out.lex.pos <= |input|)
      && (out.Returned? && out.popped ==> out.found && !hasContent && out.lex.resultSymbol == StringEnd)
      && (out.Returned? && out.found && !out.popped ==>
            && out.lex.resultSymbol == StringContent
            && out.lex.markedEnd >= l.pos
            && (!hasContent ==> out.lex.markedEnd > l.pos))
    decreases |input| - l.pos
  {
    if Lookahead(input, l) != 0 {
      match ContentStepOf(input, d, l, hasContent)
      case Continue(l1) =>
        ContentStepFacts(input, d, l, hasContent);
        ContentLoopFacts(input, d, l1, true);
      case Stop(_) =>
        ContentStepFacts(input, d, l, hasContent);
    }
  }

  /** The same facts for one pass of the loop body. */
  lemma ContentStepFacts(input: seq<int>, d: Delimiter, l: LexState, hasContent: bool)
    requires Lookahead(input, l) != 0
    ensures var s := ContentStepOf(input, d, l, hasContent);
      && (s.Continue? ==> s.next.tokenStart == l.tokenStart && s.next.pos <= |input|)
      && (s.Stop? ==>
            var out := s.outcome;
            && l.pos <= out.lex.pos <= |input|
            && out.lex.tokenStart == l.tokenStart
            && (out.popped ==> out.found && !hasContent && out.lex.resultSymbol == StringEnd)
            && (out.found && !out.popped ==>
                  out.lex.resultSymbol == StringContent && out.lex.markedEnd >= l.pos && hasContent))
  {
    var la := Lookahead(input, l);
    if la == '{' as int && IsFormat(d) {
    } else if la == '\\' as int {
    } else if la == EndCharacter(d) {
      if IsTriple(d) {
        var l1 := Advance(input, MarkEnd(l), false);
        var l2 := Advance(input, l1, false);
        assert l1.pos == l.pos + 1 && l1.tokenStart == l.tokenStart;
      }
    }
  }

  /** STRING_END consumes exactly the closing delimiter of the innermost string: its
      end character once, or three times for a triple-quoted string, and the token
      ends right after it. */
  lemma StringEndShape(input: seq<int>, d: Delimiter, l: LexState)
    requires ContentLoop(input, d, l, false).Returned? && ContentLoop(input, d, l, false).popped
    ensures var out := ContentLoop(input, d, l, false);
      var c := EndCharacter(d);
      && c != 0
      && out.lex.markedEnd == out.lex.pos
      && (IsTriple(d) ==> out.lex.pos == l.pos + 3 <= |input| && input[l.pos..l.pos + 3] == [c, c, c])
      && (!IsTriple(d) ==> out.lex.pos == l.pos + 1 <= |input| && input[l.pos] == c)
  {
    match ContentStepOf(input, d, l, false)
    case Continue(l1) =>
      ContentLoopFacts(input, d, l1, true);
      assert false;
    case Stop(_) =>
  }

  /** A `{{` in a format string is taken as content together with the character that
      follows it, whatever that character is: `f"{{"` followed by a newline does not
      end at its closing quote. */
  lemma DoubleBraceTakesNextCharacter(input: seq<int>, d: Delimiter, l: LexState, hasContent: bool)
    requires IsFormat(d) && l.pos + 3 <= |input|
    requires input[l.pos] == '{' as int && input[l.pos + 1] == '{' as int
    ensures ContentLoop(input, d, l, hasContent)
      == ContentLoop(input, d, l.(pos := l.pos + 3, markedEnd := l.pos), true)
  {
  }

  lemma FormatStringOfDoubleBraceMissesQuote()
    ensures var input := ['{' as int, '{' as int, '"' as int, '\n' as int];
      var l := LexState(0, 0, 0, 0);
      ContentLoop(input, DoubleQuote + Format, l, false) == Returned(false, LexState(3, 0, 0, 0), false)
  {
    var input := ['{' as int, '{' as int, '"' as int, '\n' as int];
    var d := DoubleQuote + Format;
    DoubleBraceTakesNextCharacter(input, d, LexState(0, 0, 0, 0), false);
  }

  // ---------------------------------------------------------------- layout

  /** The layout loop only skips: the end mark and the symbol stay as they were, and
      the position stays within the input. When no wrap-around is possible, the
      indentation plus eight columns per code point left never grows: each code
      point adds at most eight columns (a tab). */
  lemma {:induction false} LayoutFacts(input: seq<int>, isSpace: int -> bool, l: LexState,
                                       eol: bool, indent: u32, fc: int)
    ensures var out := LayoutLoop(input, isSpace, l, eol, indent, fc);
      && out.lex.markedEnd == l.markedEnd && out.lex.resultSymbol == l.resultSymbol
      && l.pos <= out.lex.pos
      && (l.pos <= |input| ==> out.lex.pos <= |input|)
      && (out.LayoutDone? && l.pos <= |input| && indent + 8 * (|input| - l.pos) < 0x1_0000_0000 ==>
            out.indentLength + 8 * (|input| - out.lex.pos) <= indent + 8 * (|input| - l.pos))
      && (l.tokenStart == l.pos ==> out.lex.tokenStart == out.lex.pos)
    decreases |input| - l.pos
  {
    LayoutStepFacts(input, isSpace, l, eol, indent, fc);
    match LayoutStepOf(input, isSpace, l, eol, indent, fc)
    case Next(l1, eol1, indent1, fc1) => LayoutFacts(input, isSpace, l1, eol1, indent1, fc1);
    case Finish(_) =>
  }

  lemma LayoutStepFacts(input: seq<int>, isSpace: int -> bool, l: LexState, eol: bool, indent: u32, fc: int)
    ensures var s := LayoutStepOf(input, isSpace, l, eol, indent, fc);
      s.Next? ==> (
            && s.lex.markedEnd == l.markedEnd && s.lex.resultSymbol == l.resultSymbol
            && (l.pos <= |input| ==> s.lex.pos <= |input|)
            && (l.pos <= |input| && indent + 8 * (|input| - l.pos) < 0x1_0000_0000 ==>
                  s.indentLength + 8 * (|input| - s.lex.pos) <= indent + 8 * (|input| - l.pos))
            && s.lex.tokenStart == s.lex.pos)
    ensures var s := LayoutStepOf(input, isSpace, l, eol, indent, fc);
      s.Finish? ==> (
            && s.outcome.lex.markedEnd == l.markedEnd && s.outcome.lex.resultSymbol == l.resultSymbol
            && l.pos <= s.outcome.lex.pos
            && (l.pos <= |input| ==> s.outcome.lex.pos <= |input|)
            && (s.outcome.LayoutDone? ==> s.outcome.lex == l && s.outcome.indentLength <= indent)
            && (l.tokenStart == l.pos ==> s.outcome.lex.tokenStart == s.outcome.lex.pos))
  {
  }

  /** The columns a run of blanks adds: one per space, eight per tab. */
  function Width(s: seq<int>): nat {
    if s == [] then 0 else (if s[0] == '\t' as int then 8 else 1) + Width(s[1..])
  }

  predicate Blanks(s: seq<int>) {
    forall i :: 0 <= i < |s| ==> s[i] == ' ' as int || s[i] == '\t' as int
  }

  /** The characters the layout loop acts on; any other one ends it. */
  predicate IsLayoutChar(c: int) {
    c == '\n' as int || c == ' ' as int || c == '\r' as int || c == '\t' as int
    || c == '#' as int || c == '\\' as int || c == 0x0C || c == 0
  }

  /** The lexer after skipping up to position `p`. */
  function SkippedTo(l: LexState, p: nat): LexState {
    if p == l.pos then l else l.(pos := p, tokenStart := p)
  }

  /** Skipping `k` blanks adds their width to the indentation. */
  lemma {:induction false} LayoutOverBlanks(input: seq<int>, isSpace: int -> bool, l: LexState,
                                            eol: bool, indent: u32, fc: int, k: nat)
    requires l.pos + k <= |input| && Blanks(input[l.pos..l.pos + k])
    requires indent + Width(input[l.pos..l.pos + k]) < 0x1_0000_0000
    ensures LayoutLoop(input, isSpace, l, eol, indent, fc)
      == LayoutLoop(input, isSpace, SkippedTo(l, l.pos + k), eol, indent + Width(input[l.pos..l.pos + k]), fc)
    decreases k
  {
    var run := input[l.pos..l.pos + k];
    if k == 0 {
      assert SkippedTo(l, l.pos + k) == l && Width(run) == 0;
    } else {
      var rest := input[l.pos + 1..l.pos + k];
      var w := if input[l.pos] == '\t' as int then 8 else 1;
      BlanksSplit(input, l.pos, k);
      var l1 := Advance(input, l, true);
      var indent1: u32 := indent + w;
      var total: u32 := indent + Width(run);
      assert l1.pos == l.pos + 1 && input[l1.pos..l1.pos + (k - 1)] == rest;
      assert SkippedTo(l1, l1.pos + (k - 1)) == SkippedTo(l, l.pos + k);
      assert Wrap32(indent + w) == indent1;
      assert indent1 + Width(input[l1.pos..l1.pos + (k - 1)]) == total;
      BlankStep(input, isSpace, l, eol, indent, fc);
      LayoutOverBlanks(input, isSpace, l1, eol, indent1, fc, k - 1);
    }
  }

  /** A run of blanks is its first blank followed by a shorter run. */
  lemma BlanksSplit(input: seq<int>, p: nat, k: nat)
    requires 0 < k && p + k <= |input| && Blanks(input[p..p + k])
    ensures input[p] == ' ' as int || input[p] == '\t' as int
    ensures Blanks(input[p + 1..p + k])
    ensures Width(input[p..p + k]) == (if input[p] == '\t' as int then 8 else 1) + Width(input[p + 1..p + k])
  {
    var run := input[p..p + k];
    var rest := input[p + 1..p + k];
    assert run[0] == input[p] && run[1..] == rest;
    forall i | 0 <= i < |rest| ensures rest[i] == ' ' as int || rest[i] == '\t' as int {
      assert rest[i] == run[i + 1];
    }
  }

  /** One blank: a space adds one column, a tab eight. */
  lemma BlankStep(input: seq<int>, isSpace: int -> bool, l: LexState, eol: bool, indent: u32, fc: int)
    requires l.pos < |input| && (input[l.pos] == ' ' as int || input[l.pos] == '\t' as int)
    ensures var w := if input[l.pos] == '\t' as int then 8 else 1;
      LayoutLoop(input, isSpace, l, eol, indent, fc)
      == LayoutLoop(input, isSpace, Advance(input, l, true), eol, Wrap32(indent + w), fc)
  {
  }

  /** The indentation measured for a line is the width of the blanks that open it,
      whatever came before the newline, and the newline is recorded. */
  lemma LastLineIndent(input: seq<int>, isSpace: int -> bool, l: LexState,
                       eol: bool, indent: u32, fc: int, k: nat)
    requires l.pos + 1 + k < |input| && input[l.pos] == '\n' as int
    requires Blanks(input[l.pos + 1..l.pos + 1 + k]) && !IsLayoutChar(input[l.pos + 1 + k])
    requires Width(input[l.pos + 1..l.pos + 1 + k]) < 0x1_0000_0000
    ensures LayoutLoop(input, isSpace, l, eol, indent, fc)
      == LayoutDone(SkippedTo(l, l.pos + 1 + k), true, Width(input[l.pos + 1..l.pos + 1 + k]), fc)
  {
    var l1 := Advance(input, l, true);
    assert LayoutStepOf(input, isSpace, l, eol, indent, fc) == Next(l1, true, 0, fc);
    LayoutOverBlanks(input, isSpace, l1, true, 0, fc, k);
    var l2 := SkippedTo(l1, l1.pos + k);
    assert l2 == SkippedTo(l, l.pos + 1 + k);
    assert Lookahead(input, l2) == input[l.pos + 1 + k];
  }

  /** The end of the input ends the line, with no indentation. */
  lemma EndOfInputEndsLine(input: seq<int>, isSpace: int -> bool, l: LexState, eol: bool, indent: u32, fc: int)
    requires Lookahead(input, l) == 0
    ensures LayoutLoop(input, isSpace, l, eol, indent, fc) == LayoutDone(l, true, 0, fc)
  {
  }

  /** The comment loop stops at the first newline. */
  lemma {:induction false} SkipCommentTo(input: seq<int>, l: LexState, e: nat)
    requires l.pos <= e < |input| && input[e] == '\n' as int
    requires forall i :: l.pos <= i < e ==> input[i] != '\n' as int && input[i] != 0
    ensures SkipComment(input, l) == SkippedTo(l, e)
    decreases e - l.pos
  {
    if l.pos < e {
      SkipCommentTo(input, Advance(input, l, true), e);
    }
  }

  /** A comment is skipped together with the newline after it, without counting as an
      end of line; the indentation restarts from 0, and the first comment's indentation
      is recorded. */
  lemma CommentLineSkipped(input: seq<int>, isSpace: int -> bool, l: LexState,
                           eol: bool, indent: u32, fc: int, e: nat)
    requires l.pos < e < |input| && input[l.pos] == '#' as int && input[e] == '\n' as int
    requires forall i :: l.pos < i < e ==> input[i] != '\n' as int && input[i] != 0
    ensures LayoutLoop(input, isSpace, l, eol, indent, fc)
      == LayoutLoop(input, isSpace, SkippedTo(l, e + 1), eol, 0, if fc == -1 then ToInt32(indent) else fc)
  {
    SkipCommentTo(input, l, e);
  }

  /** A backslash that is not followed by white space ends the layout loop in failure. */
  lemma BackslashWithoutSpaceFails(input: seq<int>, isSpace: int -> bool, l: LexState, eol: bool, indent: u32, fc: int)
    requires Lookahead(input, l) == '\\' as int && !isSpace(Lookahead(input, Advance(input, l, true)))
    ensures LayoutLoop(input, isSpace, l, eol, indent, fc) == LayoutFailed(Advance(input, l, true))
  {
  }

  // ---------------------------------------------------------------- string start

  /** The prefix letters only move forward and touch neither the quote bits nor the
      triple bit. */
  lemma {:induction false} PrefixLoopFacts(input: seq<int>, l: LexState, d: Delimiter, hasFlags: bool)
    ensures var (l1, d1, _) := PrefixLoop(input, l, d, hasFlags);
      && l1.pos >= l.pos && (l.pos <= |input| ==> l1.pos <= |input|)
      && l1.markedEnd == l.markedEnd && l1.tokenStart == l.tokenStart && l1.resultSymbol == l.resultSymbol
      && d1 % 8 == d % 8 && (IsTriple(d1) <==> IsTriple(d))
    decreases |input| - l.pos
  {
    var la := Lookahead(input, l);
    var l1 := Advance(input, l, false);
    if la == 0 {
    } else if la == 'f' as int || la == 'F' as int {
      PrefixLoopFacts(input, l1, WithFormat(d), true);
    } else if la == 'r' as int || la == 'R' as int {
      PrefixLoopFacts(input, l1, WithRaw(d), true);
    } else if la == 'b' as int || la == 'B' as int {
      PrefixLoopFacts(input, l1, WithBytes(d), true);
    } else if la == 'u' as int || la == 'U' as int {
      PrefixLoopFacts(input, l1, d, true);
    }
  }

  /** The prefix letters `input[p..q]` give the flags of `d`: f or F sets Format,
      r or R sets Raw, b or B sets Bytes, and u or U sets nothing. */
  predicate PrefixGives(input: seq<int>, p: nat, q: nat, d: Delimiter)
    requires p <= q <= |input|
  {
    var letters := input[p..q];
    && (forall i :: p <= i < q ==> IsPrefixLetter(input[i]))
    && (IsFormat(d) <==> 'f' as int in letters || 'F' as int in letters)
    && (IsRaw(d) <==> 'r' as int in letters || 'R' as int in letters)
    && (IsBytes(d) <==> 'b' as int in letters || 'B' as int in letters)
  }

  /** The prefix loop consumes prefix letters only, and each one it consumes sets
      its own flag on top of those already set. */
  lemma {:induction false} PrefixLoopFlags(input: seq<int>, l: LexState, d: Delimiter, hasFlags: bool)
    requires l.pos <= |input|
    ensures var (l1, d1, _) := PrefixLoop(input, l, d, hasFlags);
      && l.pos <= l1.pos <= |input|
      && var letters := input[l.pos..l1.pos];
      && (forall i :: l.pos <= i < l1.pos ==> IsPrefixLetter(input[i]))
      && (IsFormat(d1) <==> IsFormat(d) || 'f' as int in letters || 'F' as int in letters)
      && (IsRaw(d1) <==> IsRaw(d) || 'r' as int in letters || 'R' as int in letters)
      && (IsBytes(d1) <==> IsBytes(d) || 'b' as int in letters || 'B' as int in letters)
    decreases |input| - l.pos
  {
    var la := Lookahead(input, l);
    if la != 0 && IsPrefixLetter(la) {
      var l1 := Advance(input, l, false);
      var d1 := if la == 'f' as int || la == 'F' as int then WithFormat(d)
                else if la == 'r' as int || la == 'R' as int then WithRaw(d)
                else if la == 'b' as int || la == 'B' as int then WithBytes(d)
                else d;
      PrefixLetterFlags(d, la);
      assert PrefixLoop(input, l, d, hasFlags) == PrefixLoop(input, l1, d1, true);
      PrefixLoopFlags(input, l1, d1, true);
      var e := PrefixLoop(input, l1, d1, true).0.pos;
      assert input[l.pos..e] == [la] + input[l1.pos..e];
    }
  }

  /** One prefix letter sets its own flag and no other. */
  lemma PrefixLetterFlags(d: Delimiter, la: int)
    ensures var d1 := if la == 'f' as int || la == 'F' as int then WithFormat(d)
                      else if la == 'r' as int || la == 'R' as int then WithRaw(d)
                      else if la == 'b' as int || la == 'B' as int then WithBytes(d)
                      else d;
      && (IsFormat(d1) <==> IsFormat(d) || la == 'f' as int || la == 'F' as int)
      && (IsRaw(d1) <==> IsRaw(d) || la == 'r' as int || la == 'R' as int)
      && (IsBytes(d1) <==> IsBytes(d) || la == 'b' as int || la == 'B' as int)
  {
    if la == 'f' as int || la == 'F' as int {
      WithFormatTests(d);
    } else if la == 'r' as int || la == 'R' as int {
      WithRawTests(d);
    } else if la == 'b' as int || la == 'B' as int {
      WithBytesTests(d);
    }
  }

  /** Where a STRING_START's prefix ends: the opening quote, one or three code points
      before the end mark. */
  function QuoteStart(r: ScanResult): int
    requires |r.stacks.delimiters| >= 1
  {
    r.lex.markedEnd - (if IsTriple(r.stacks.delimiters[|r.stacks.delimiters| - 1]) then 3 else 1)
  }

  /** The pushed delimiter's Format, Raw and Bytes flags are those the prefix letters
      from `p` up to the opening quote give. */
  predicate FlagsFromPrefix(input: seq<int>, p: nat, r: ScanResult) {
    && |r.stacks.delimiters| >= 1
    && p <= QuoteStart(r) <= |input|
    && PrefixGives(input, p, QuoteStart(r), r.stacks.delimiters[|r.stacks.delimiters| - 1])
  }

  /** What a successful STRING_START has done: pushed one delimiter with a closing
      quote on the delimiter stack, left the indent stack alone, and marked the token's
      end right after the opening quote, or after three of them for a triple-quoted
      string. The delimiter is triple exactly when three equal single or double quotes
      open it: a single quote character that is not a back quote opens a one-quote
      string only when the next two characters are not both that quote. */
  predicate OpensString(input: seq<int>, before: Stacks, r: ScanResult) {
    var n := |before.delimiters|;
    var e := r.lex.markedEnd;
    && r.stacks.indents == before.indents
    && |r.stacks.delimiters| == n + 1 && r.stacks.delimiters[..n] == before.delimiters
    && var d := r.stacks.delimiters[n];
       var c := EndCharacter(d);
       && c != 0
       && (IsTriple(d) ==> c != BackQuoteChar && 3 <= e <= |input| && input[e - 3..e] == [c, c, c])
       && (!IsTriple(d) ==> 1 <= e <= |input| && input[e - 1] == c)
       && (!IsTriple(d) && c != BackQuoteChar ==> !(e + 2 <= |input| && input[e] == c && input[e + 1] == c))
  }

  /** The opening quote at `l.pos`: at most one quote bit is added to flags that had
      none; the end is marked after one quote, or after three equal single or double
      quotes, which is exactly when the delimiter becomes triple. Without a quote
      nothing changes. */
  lemma OpenQuoteFacts(input: seq<int>, l: LexState, d: Delimiter)
    requires NoQuote(d) && !IsTriple(d)
    ensures var (l2, d2) := OpenQuote(input, l, d);
      var c := EndCharacter(d2);
      && l2.tokenStart == l.tokenStart && l2.resultSymbol == l.resultSymbol
      && (c == 0 ==> d2 == d && l2 == l && (l.pos < |input| ==> !IsQuoteChar(input[l.pos])))
      && (c != 0 ==> l.pos < |input| && input[l.pos] == c && d2 / 8 == d / 8 + (if IsTriple(d2) then 4 else 0))
      && (c != 0 ==> l2.markedEnd == l.pos + (if IsTriple(d2) then 3 else 1))
      && (c != 0 ==> (IsTriple(d2) <==> c != BackQuoteChar && l.pos + 3 <= |input| && input[l.pos..l.pos + 3] == [c, c, c]))
      && (IsRaw(d2) <==> IsRaw(d)) && (IsFormat(d2) <==> IsFormat(d)) && (IsBytes(d2) <==> IsBytes(d))
  {
    var la := Lookahead(input, l);
    if la == BackQuoteChar {
      EndCharacterOfSet(d, la);
      SetEndCharacterKeepsTests(d, la);
    } else if la == SingleQuoteChar || la == DoubleQuoteChar {
      EndCharacterOfSet(d, la);
      SetEndCharacterKeepsTests(d, la);
      var d1 := SetEndCharacter(d, la);
      WithTripleTests(d1);
      EndCharacterOfLowBits(WithTriple(d1), d1);
      var l1 := MarkEnd(Advance(input, l, false));
      if Lookahead(input, l1) == la {
        var l2 := Advance(input, l1, false);
        if Lookahead(input, l2) == la {
          assert input[l.pos..l.pos + 3] == [la, la, la];
        }
      }
    } else {
      EndCharacterZeroIff(d);
    }
  }

  /** STRING_START either opens a string, or fails and leaves the stacks alone. */
  lemma StringStartFacts(input: seq<int>, st: Stacks, l: LexState)
    ensures var r := StringStartScan(input, st, l);
      && (!r.found ==> r.stacks == st)
      && (r.found ==> r.lex.resultSymbol == StringStart && OpensString(input, st, r))
      && r.lex.tokenStart == l.tokenStart
      && (r.found && l.pos <= |input| ==> FlagsFromPrefix(input, l.pos, r))
  {
    var (l1, d1, _) := PrefixLoop(input, l, 0, false);
    PrefixLoopFacts(input, l, 0, false);
    OpenQuoteFacts(input, l1, d1);
    var (l2, d2) := OpenQuote(input, l1, d1);
    var r := StringStartScan(input, st, l);
    if r.found {
      assert r.stacks.delimiters[..|st.delimiters|] == st.delimiters;
      if l.pos <= |input| {
        PrefixLoopFlags(input, l, 0, false);
        assert QuoteStart(r) == l1.pos;
      }
    }
  }

  /** As written, quote bits left in the uninitialised flags open a string where
      there is no quote: at an identifier `x`, an empty STRING_START is returned and a
      single-quote delimiter is pushed. */
  lemma UninitialisedFlagsOpenString()
    ensures var input := ['x' as int];
      var st := Stacks([0], []);
      var r := StringStartScanFrom(input, st, LexState(0, 0, 0, 0), SingleQuote);
      && r.found && r.lex.resultSymbol == StringStart && r.lex.markedEnd == 0
      && r.stacks.delimiters == [SingleQuote]
      && !OpensString(input, st, r)
  {
    var input := ['x' as int];
    assert PrefixLoop(input, LexState(0, 0, 0, 0), SingleQuote, false) == (LexState(0, 0, 0, 0), SingleQuote, false);
  }

  /** Starting from cleared flags, the scan as written is the corrected one. */
  lemma StringStartScanFromCleared(input: seq<int>, st: Stacks, l: LexState)
    ensures StringStartScanFrom(input, st, l, 0) == StringStartScan(input, st, l)
  {
  }

  // ---------------------------------------------------------------- the whole scan

  /** How an accepted token changes the stacks. INDENT pushes one indent entry and
      DEDENT pops one that is above 0; STRING_START pushes a delimiter with a closing
      quote and STRING_END pops one; NEWLINE and STRING_CONTENT change nothing. */
  predicate StackEffect(before: Stacks, after: Stacks, symbol: int) {
    var n := |before.indents|;
    var k := |before.delimiters|;
    && 0 <= symbol < TokenCount
    && (symbol == Indent ==>
          after.delimiters == before.delimiters && |after.indents| == n + 1 && after.indents[..n] == before.indents)
    && (symbol == Dedent ==>
          after.delimiters == before.delimiters && n >= 1 && before.indents[n - 1] > 0
          && after.indents == before.indents[..n - 1])
    && (symbol == StringStart ==>
          after.indents == before.indents && |after.delimiters| == k + 1 && after.delimiters[..k] == before.delimiters
          && EndCharacter(after.delimiters[k]) != 0)
    && (symbol == StringEnd ==>
          after.indents == before.indents && k >= 1 && after.delimiters == before.delimiters[..k - 1])
    && (symbol == Newline || symbol == StringContent ==> after == before)
  }

  /** The token chosen after the layout loop: a layout token or STRING_START, only when
      it is valid, with its effect on the stacks; on failure the stacks are unchanged. */
  lemma DecideFacts(input: seq<int>, valid: seq<bool>, st: Stacks, l: LexState, eol: bool, indent: u32, fc: int)
    requires |valid| >= TokenCount
    ensures var r := Decide(input, valid, st, l, eol, indent, fc);
      && (!r.found ==> r.stacks == st)
      && (r.found ==>
            && StackEffect(st, r.stacks, r.lex.resultSymbol)
            && (r.lex.resultSymbol == Newline || r.lex.resultSymbol == Indent
                || r.lex.resultSymbol == Dedent || r.lex.resultSymbol == StringStart)
            && valid[r.lex.resultSymbol]
            && (r.lex.resultSymbol != StringStart ==> r.lex == SetSymbol(l, r.lex.resultSymbol))
            && (r.lex.resultSymbol == StringStart ==> OpensString(input, st, r)))
  {
    StringStartFacts(input, st, l);
    var n := |st.indents|;
    if eol && n != 0 && valid[Indent] && indent > st.indents[n - 1] {
      assert (st.indents + [indent % 0x1_0000])[..n] == st.indents;
    }
  }

  lemma AfterContentFacts(input: seq<int>, isSpace: int -> bool, valid: seq<bool>, st: Stacks, l: LexState)
    requires |valid| >= TokenCount
    ensures var r := AfterContent(input, isSpace, valid, st, l);
      && (!r.found ==> r.stacks == st)
      && (r.found ==>
            && StackEffect(st, r.stacks, r.lex.resultSymbol)
            && (r.lex.resultSymbol == Newline || r.lex.resultSymbol == Indent
                || r.lex.resultSymbol == Dedent || r.lex.resultSymbol == StringStart)
            && valid[r.lex.resultSymbol]
            && (r.lex.resultSymbol != StringStart ==> r.lex.markedEnd == l.pos)
            && (r.lex.resultSymbol == StringStart ==> OpensString(input, st, r)))
  {
    LayoutFacts(input, isSpace, MarkEnd(l), false, 0, -1);
    match LayoutLoop(input, isSpace, MarkEnd(l), false, 0, -1)
    case LayoutFailed(_) =>
    case LayoutDone(l1, eol, indent, fc) => DecideFacts(input, valid, st, l1, eol, indent, fc);
  }

  /** The stacks change only when a token is accepted, and then as `StackEffect` says. */
  lemma ScanStackDiscipline(input: seq<int>, isSpace: int -> bool, valid: seq<bool>, st: Stacks, l: LexState)
    requires |valid| >= TokenCount
    ensures var r := Scan(input, isSpace, valid, st, l);
      && (!r.found ==> r.stacks == st)
      && (r.found ==> StackEffect(st, r.stacks, r.lex.resultSymbol))
  {
    if InString(valid, st) {
      var k := |st.delimiters|;
      ContentLoopFacts(input, st.delimiters[k - 1], l, false);
      match ContentLoop(input, st.delimiters[k - 1], l, false)
      case Returned(_, _, _) =>
      case Exhausted(l1) => AfterContentFacts(input, isSpace, valid, st, l1);
    } else {
      AfterContentFacts(input, isSpace, valid, st, l);
    }
  }

  /** A token is accepted only where the parser allows it: the string tokens only
      inside a string when STRING_CONTENT is valid and INDENT is not, every other token
      only when it is valid itself. */
  lemma ScanRespectsValidSymbols(input: seq<int>, isSpace: int -> bool, valid: seq<bool>, st: Stacks, l: LexState)
    requires |valid| >= TokenCount
    ensures var r := Scan(input, isSpace, valid, st, l);
      r.found ==>
        && 0 <= r.lex.resultSymbol < TokenCount
        && (r.lex.resultSymbol == StringContent || r.lex.resultSymbol == StringEnd ==> InString(valid, st))
        && (r.lex.resultSymbol != StringContent && r.lex.resultSymbol != StringEnd ==> valid[r.lex.resultSymbol])
  {
    if InString(valid, st) {
      var k := |st.delimiters|;
      ContentLoopFacts(input, st.delimiters[k - 1], l, false);
      match ContentLoop(input, st.delimiters[k - 1], l, false)
      case Returned(_, _, _) =>
      case Exhausted(l1) => AfterContentFacts(input, isSpace, valid, st, l1);
    } else {
      AfterContentFacts(input, isSpace, valid, st, l);
    }
  }

  /** The indent stack keeps its bottom entry 0. */
  lemma ScanKeepsIndentBase(input: seq<int>, isSpace: int -> bool, valid: seq<bool>, st: Stacks, l: LexState)
    requires |valid| >= TokenCount
    requires |st.indents| >= 1 && st.indents[0] == 0
    ensures var r := Scan(input, isSpace, valid, st, l);
      |r.stacks.indents| >= 1 && r.stacks.indents[0] == 0
  {
    ScanStackDiscipline(input, isSpace, valid, st, l);
    var r := Scan(input, isSpace, valid, st, l);
    if r.found && r.lex.resultSymbol == Indent {
      assert r.stacks.indents[0] == r.stacks.indents[..|st.indents|][0];
    }
  }

  predicate StrictlyIncreasing(s: seq<u16>) {
    forall i, j :: 0 <= i < j < |s| ==> s[i] < s[j]
  }

  /** INDENT pushes an entry above the top one as long as the measured indentation
      fits the 16 bits of an entry. */
  lemma DecideKeepsIncreasing(input: seq<int>, valid: seq<bool>, st: Stacks, l: LexState, eol: bool, indent: u32, fc: int)
    requires |valid| >= TokenCount
    requires StrictlyIncreasing(st.indents) && indent < 0x1_0000
    ensures StrictlyIncreasing(Decide(input, valid, st, l, eol, indent, fc).stacks.indents)
  {
    StringStartFacts(input, st, l);
  }

  /** Beyond 65535 columns the truncation breaks the order: an indentation of 65536
      columns is pushed as 0, on top of the bottom 0. */
  lemma IndentTruncationBreaksIncreasing(input: seq<int>, l: LexState)
    ensures var r := Decide(input, [true, true, true, true, true, true], Stacks([0], []), l, true, 0x1_0000, -1);
      && r.found && r.lex.resultSymbol == Indent
      && r.stacks.indents == [0, 0] && !StrictlyIncreasing(r.stacks.indents)
  {
    var s: seq<u16> := [0, 0];
    assert s[0] == s[1];
  }

  /** A newline that ends a logical line: one that no backslash escapes. */
  predicate HardNewline(input: seq<int>, q: nat) {
    q < |input| && input[q] == '\n' as int && (q == 0 || input[q - 1] != '\\' as int)
  }

  /** The code points from `p` to the end of its logical line (or of the input). */
  function ToBreak(input: seq<int>, p: nat): nat
    decreases |input| - p
  {
    if p >= |input| || HardNewline(input, p) then 0 else 1 + ToBreak(input, p + 1)
  }

  /** Every logical line from `p` on is shorter than 8192 code points, so that its
      blanks, at most eight columns each, measure less than 65536 columns. */
  predicate ShortLines(input: seq<int>, p: nat) {
    forall q :: p <= q <= |input| ==> ToBreak(input, q) < 8192
  }

  /** One pass of the layout loop keeps the indentation plus eight columns per code
      point left on the logical line below 65536: blanks use up the line, a newline,
      carriage return, form feed or comment restarts from 0, and a continuation skips
      the escaped character without a reset. */
  lemma LayoutStepShort(input: seq<int>, isSpace: int -> bool, l: LexState, eol: bool, indent: u32, fc: int)
    requires l.pos <= |input| && ShortLines(input, l.pos)
    requires indent + 8 * ToBreak(input, l.pos) < 0x1_0000
    ensures var s := LayoutStepOf(input, isSpace, l, eol, indent, fc);
      && (s.Next? ==> s.lex.pos <= |input| && ShortLines(input, s.lex.pos)
                      && s.indentLength + 8 * ToBreak(input, s.lex.pos) < 0x1_0000)
      && (s.Finish? && s.outcome.LayoutDone? ==> s.outcome.indentLength < 0x1_0000)
  {
    var la := Lookahead(input, l);
    var s := LayoutStepOf(input, isSpace, l, eol, indent, fc);
    if s.Next? {
      assert l.pos <= s.lex.pos <= |input| by { LayoutStepFacts(input, isSpace, l, eol, indent, fc); }
      assert ToBreak(input, s.lex.pos) < 8192;
      if la == ' ' as int || la == '\t' as int {
        assert ToBreak(input, l.pos) == 1 + ToBreak(input, l.pos + 1);
      } else if la == '\\' as int {
        var l1 := Advance(input, l, true);
        assert ToBreak(input, l.pos) == 1 + ToBreak(input, l.pos + 1);
        if l1.pos < |input| {
          assert !HardNewline(input, l1.pos);
          assert ToBreak(input, l1.pos) == 1 + ToBreak(input, l1.pos + 1);
        }
      }
    }
  }

  /** The whole layout loop measures less than 65536 columns on short lines. */
  lemma {:induction false} LayoutShort(input: seq<int>, isSpace: int -> bool, l: LexState,
                                       eol: bool, indent: u32, fc: int)
    requires l.pos <= |input| && ShortLines(input, l.pos)
    requires indent + 8 * ToBreak(input, l.pos) < 0x1_0000
    ensures var out := LayoutLoop(input, isSpace, l, eol, indent, fc);
      out.LayoutDone? ==> out.indentLength < 0x1_0000
    decreases |input| - l.pos
  {
    LayoutStepShort(input, isSpace, l, eol, indent, fc);
    match LayoutStepOf(input, isSpace, l, eol, indent, fc)
    case Next(l1, eol1, indent1, fc1) => LayoutShort(input, isSpace, l1, eol1, indent1, fc1);
    case Finish(_) =>
  }

  /** The indent stack stays strictly increasing as long as every logical line left
      in the input is shorter than 8192 code points, so that no indentation the scan
      measures reaches 65536 columns. */
  lemma ScanKeepsIncreasing(input: seq<int>, isSpace: int -> bool, valid: seq<bool>, st: Stacks, l: LexState)
    requires |valid| >= TokenCount
    requires StrictlyIncreasing(st.indents)
    requires l.pos <= |input| && ShortLines(input, l.pos)
    ensures StrictlyIncreasing(Scan(input, isSpace, valid, st, l).stacks.indents)
  {
    if InString(valid, st) {
      var k := |st.delimiters|;
      ContentLoopFacts(input, st.delimiters[k - 1], l, false);
      match ContentLoop(input, st.delimiters[k - 1], l, false)
      case Returned(_, _, _) =>
      case Exhausted(l1) =>
        assert ShortLines(input, l1.pos);
        AfterContentIncreasing(input, isSpace, valid, st, l1);
    } else {
      AfterContentIncreasing(input, isSpace, valid, st, l);
    }
  }

  lemma AfterContentIncreasing(input: seq<int>, isSpace: int -> bool, valid: seq<bool>, st: Stacks, l: LexState)
    requires |valid| >= TokenCount
    requires StrictlyIncreasing(st.indents)
    requires l.pos <= |input| && ShortLines(input, l.pos)
    ensures StrictlyIncreasing(AfterContent(input, isSpace, valid, st, l).stacks.indents)
  {
    assert ToBreak(input, l.pos) < 8192;
    LayoutFacts(input, isSpace, MarkEnd(l), false, 0, -1);
    LayoutShort(input, isSpace, MarkEnd(l), false, 0, -1);
    match LayoutLoop(input, isSpace, MarkEnd(l), false, 0, -1)
    case LayoutFailed(_) =>
    case LayoutDone(l1, eol, indent, fc) => DecideKeepsIncreasing(input, valid, st, l1, eol, indent, fc);
  }

  /** The old, uniform bound is a special case: a logical line never runs past the
      end of the input. */
  lemma {:induction false} ToBreakAtMostRest(input: seq<int>, p: nat)
    requires p <= |input|
    ensures ToBreak(input, p) <= |input| - p
    decreases |input| - p
  {
    if p < |input| && !HardNewline(input, p) {
      ToBreakAtMostRest(input, p + 1);
    }
  }

  /** Fewer than 8192 code points left in the input always give short lines. */
  lemma ShortLinesOfShortRest(input: seq<int>, p: nat)
    requires p <= |input| && |input| - p < 8192
    ensures ShortLines(input, p)
  {
    forall q | p <= q <= |input| ensures ToBreak(input, q) < 8192 {
      ToBreakAtMostRest(input, q);
    }
  }

  /** STRING_END is returned only inside a string, and consumes that string's closing
      delimiter, the token ending right after it. */
  lemma ScanStringEnd(input: seq<int>, isSpace: int -> bool, valid: seq<bool>, st: Stacks, l: LexState)
    requires |valid| >= TokenCount
    ensures var r := Scan(input, isSpace, valid, st, l);
      r.found && r.lex.resultSymbol == StringEnd ==>
        && InString(valid, st)
        && var d := st.delimiters[|st.delimiters| - 1];
           var c := EndCharacter(d);
           && c != 0 && r.lex.markedEnd == r.lex.pos
           && (IsTriple(d) ==> r.lex.pos == l.pos + 3 <= |input| && input[l.pos..l.pos + 3] == [c, c, c])
           && (!IsTriple(d) ==> r.lex.pos == l.pos + 1 <= |input| && input[l.pos] == c)
  {
    if InString(valid, st) {
      var d := st.delimiters[|st.delimiters| - 1];
      ContentLoopFacts(input, d, l, false);
      match ContentLoop(input, d, l, false)
      case Returned(_, _, popped) =>
        if popped {
          StringEndShape(input, d, l);
        }
      case Exhausted(l1) => AfterContentFacts(input, isSpace, valid, st, l1);
    } else {
      AfterContentFacts(input, isSpace, valid, st, l);
    }
  }

  /** STRING_CONTENT is returned only inside a string, starts where the call began and
      is never empty. */
  lemma ScanStringContent(input: seq<int>, isSpace: int -> bool, valid: seq<bool>, st: Stacks, l: LexState)
    requires |valid| >= TokenCount
    ensures var r := Scan(input, isSpace, valid, st, l);
      r.found && r.lex.resultSymbol == StringContent ==>
        InString(valid, st) && r.lex.tokenStart == l.tokenStart && r.lex.markedEnd > l.pos
  {
    if InString(valid, st) {
      var d := st.delimiters[|st.delimiters| - 1];
      ContentLoopFacts(input, d, l, false);
      match ContentLoop(input, d, l, false)
      case Returned(_, _, _) =>
      case Exhausted(l1) => AfterContentFacts(input, isSpace, valid, st, l1);
    } else {
      AfterContentFacts(input, isSpace, valid, st, l);
    }
  }

  /** A successful STRING_START has opened a string as `OpensString` says. */
  lemma ScanStringStart(input: seq<int>, isSpace: int -> bool, valid: seq<bool>, st: Stacks, l: LexState)
    requires |valid| >= TokenCount
    ensures var r := Scan(input, isSpace, valid, st, l);
      r.found && r.lex.resultSymbol == StringStart ==>
        && valid[StringStart] && OpensString(input, st, r)
        && (l.tokenStart == l.pos <= |input| ==> FlagsFromPrefix(input, r.lex.tokenStart, r))
  {
    if InString(valid, st) {
      var d := st.delimiters[|st.delimiters| - 1];
      ContentLoopFacts(input, d, l, false);
      match ContentLoop(input, d, l, false)
      case Returned(_, _, _) =>
      case Exhausted(l1) =>
        AfterContentFacts(input, isSpace, valid, st, l1);
        NoStringStartAtEnd(input, isSpace, valid, st, l1);
    } else {
      AfterContentFacts(input, isSpace, valid, st, l);
      if l.tokenStart == l.pos <= |input| {
        AfterContentStringStart(input, isSpace, valid, st, l);
      }
    }
  }

  /** Where the prefix a STRING_START found after the layout begins: at the token's
      start, since every skipped character moves the start along. */
  lemma AfterContentStringStart(input: seq<int>, isSpace: int -> bool, valid: seq<bool>, st: Stacks, l: LexState)
    requires |valid| >= TokenCount
    requires l.tokenStart == l.pos <= |input|
    ensures var r := AfterContent(input, isSpace, valid, st, l);
      r.found && r.lex.resultSymbol == StringStart ==> FlagsFromPrefix(input, r.lex.tokenStart, r)
  {
    LayoutFacts(input, isSpace, MarkEnd(l), false, 0, -1);
    match LayoutLoop(input, isSpace, MarkEnd(l), false, 0, -1)
    case LayoutFailed(_) =>
    case LayoutDone(l1, eol, indent, fc) =>
      StringStartFacts(input, st, l1);
  }

  /** At the end of the input no string can open. */
  lemma NoStringStartAtEnd(input: seq<int>, isSpace: int -> bool, valid: seq<bool>, st: Stacks, l: LexState)
    requires |valid| >= TokenCount
    requires Lookahead(input, l) == 0
    ensures var r := AfterContent(input, isSpace, valid, st, l);
      !(r.found && r.lex.resultSymbol == StringStart)
  {
  }

  /** Outside a string, NEWLINE, INDENT and DEDENT are empty tokens: their end is marked
      where the call began. */
  lemma ScanLayoutTokensAreEmpty(input: seq<int>, isSpace: int -> bool, valid: seq<bool>, st: Stacks, l: LexState)
    requires |valid| >= TokenCount
    requires !InString(valid, st)
    ensures var r := Scan(input, isSpace, valid, st, l);
      r.found && (r.lex.resultSymbol == Newline || r.lex.resultSymbol == Indent || r.lex.resultSymbol == Dedent) ==>
        r.lex.markedEnd == l.pos
  {
    AfterContentFacts(input, isSpace, valid, st, l);
  }

  /** Outside a string, a backslash that does not continue the line makes the scan fail
      without touching the stacks. */
  lemma ScanFailsAtBadContinuation(input: seq<int>, isSpace: int -> bool, valid: seq<bool>, st: Stacks, l: LexState)
    requires |valid| >= TokenCount
    requires !InString(valid, st)
    requires Lookahead(input, l) == '\\' as int && !isSpace(Lookahead(input, Advance(input, l, true)))
    ensures Scan(input, isSpace, valid, st, l) == ScanResult(false, Advance(input, MarkEnd(l), true), st)
  {
    BackslashWithoutSpaceFails(input, isSpace, MarkEnd(l), false, 0, -1);
  }
}
