/** The Python external scanner as the C code runs it
    (internal/python/patch/scanner.c:69-360): a `Scanner` object holding two
    growable stacks as array, length and capacity, and the methods that push onto
    them, save and restore them, and recognise one token from a `Lexer`. Each
    method is proved to compute the functions of modules ScanSpec and Serialization. */
module PythonScanner {
  import opened Delimiters
  import opened ScanSpec
  import opened Serialization

  /** The `TSLexer` the scanner is handed: a sequence of code points and the lexer's
      position, token start, marked end and result symbol. */
  class Lexer {
    const input: seq<int>
    var pos: nat
    var tokenStart: nat
    var markedEnd: nat
    var resultSymbol: int

    constructor(input: seq<int>)
      ensures this.input == input
      ensures State() == LexState(0, 0, 0, 0)
    {
      this.input := input;
      pos, tokenStart, markedEnd, resultSymbol := 0, 0, 0, 0;
    }

    function State(): LexState
      reads this
    {
      LexState(pos, tokenStart, markedEnd, resultSymbol)
    }

    /** `lexer->lookahead`. */
    function Lookahead(): int
      reads this
    {
      ScanSpec.Lookahead(input, State())
    }

    /** `lexer->advance(lexer, skip)`. */
    method Advance(skip: bool)
      modifies this
      ensures State() == ScanSpec.Advance(input, old(State()), skip)
    {
      if pos < |input| {
        pos := pos + 1;
        if skip {
          tokenStart := pos;
        }
      }
    }

    /** `lexer->mark_end(lexer)`. */
    method MarkEnd()
      modifies this
      ensures State() == ScanSpec.MarkEnd(old(State()))
    {
      markedEnd := pos;
    }
  }

  class Scanner {
    var indentStack: array<u16>
    var indentLen: nat
    var indentCap: nat
    var delimStack: array<Delimiter>
    var delimLen: nat
    var delimCap: nat

    /** Each capacity is the length of its array and bounds its stack's length. */
    ghost predicate Sound()
      reads this
    {
      && indentCap == indentStack.Length && indentLen <= indentCap
      && delimCap == delimStack.Length && delimLen <= delimCap
    }

    /** The indent stack is never empty and has 0 at the bottom. */
    ghost predicate Valid()
      reads this, indentStack
    {
      Sound() && indentLen >= 1 && indentStack[0] == 0
    }

    ghost function Indents(): seq<u16>
      reads this, indentStack
      requires Sound()
    {
      indentStack[..indentLen]
    }

    ghost function Delims(): seq<Delimiter>
      reads this, delimStack
      requires Sound()
    {
      delimStack[..delimLen]
    }

    ghost function Stacks(): ScanSpec.Stacks
      reads this, indentStack, delimStack
      requires Sound()
    {
      ScanSpec.Stacks(Indents(), Delims())
    }

    /** `new_scanner`: both stacks start unallocated, then a zero-length
        deserialisation leaves the indent stack at [0] and no open string. */
    constructor()
      ensures Valid() && fresh(indentStack) && fresh(delimStack)
      ensures Stacks() == ScanSpec.Stacks([0], [])
    {
      indentStack := new u16[0];
      indentLen, indentCap := 0, 0;
      delimStack := new Delimiter[0];
      delimLen, delimCap := 0, 0;
      new;
      Deserialize([], 0, false);
    }

    /** `realloc` to `n` elements: the first `min(a.Length, n)` elements are kept. */
    static method Realloc<T(0)>(a: array<T>, n: nat) returns (b: array<T>)
      ensures fresh(b) && b.Length == n
      ensures forall i :: 0 <= i < n && i < a.Length ==> b[i] == a[i]
    {
      b := new T[n];
      forall i | 0 <= i < n && i < a.Length {
        b[i] := a[i];
      }
    }

    /** `scanner_push_indent_length`. */
    method PushIndentLength(n: u16)
      requires Sound()
      modifies this, indentStack
      ensures Sound()
      ensures Indents() == old(Indents()) + [n]
      ensures indentCap == if old(indentLen) + 1 > old(indentCap) then old(indentLen) + 1 else old(indentCap)
      ensures indentStack == old(indentStack) || fresh(indentStack)
      ensures delimStack == old(delimStack) && delimLen == old(delimLen) && delimCap == old(delimCap)
    {
      indentLen := indentLen + 1;
      if indentLen > indentCap {
        indentStack := Realloc(indentStack, indentLen);
        indentCap := indentLen;
      }
      indentStack[indentLen - 1] := n;
    }

    /** `scanner_push_delimiter`. */
    method PushDelimiter(d: Delimiter)
      requires Sound()
      modifies this, delimStack
      ensures Sound()
      ensures Delims() == old(Delims()) + [d]
      ensures delimCap == if old(delimLen) + 1 > old(delimCap) then old(delimLen) + 1 else old(delimCap)
      ensures delimStack == old(delimStack) || fresh(delimStack)
      ensures indentStack == old(indentStack) && indentLen == old(indentLen) && indentCap == old(indentCap)
    {
      delimLen := delimLen + 1;
      if delimLen > delimCap {
        delimStack := Realloc(delimStack, delimLen);
        delimCap := delimLen;
      }
      delimStack[delimLen - 1] := d;
    }

    /** `scanner_serialize` into a buffer of `buffer.Length` bytes, the stand-in for
        TREE_SITTER_SERIALIZATION_BUFFER_SIZE. */
    method Serialize(buffer: array<Byte>) returns (n: nat)
      requires Valid() && buffer != delimStack
      requires 1 + StoredDelimiterCount(Stacks()) <= buffer.Length
      modifies buffer
      ensures n <= buffer.Length
      ensures buffer[..n] == SerializeSpec(Stacks(), buffer.Length)
      ensures buffer[n..] == old(buffer[n..])
    {
      ghost var st := Stacks();
      var stackSize := delimLen;
      if stackSize > MaxDelimiterCount {
        stackSize := MaxDelimiterCount;
      }
      buffer[0] := stackSize;
      CopyDelimiters(buffer, stackSize);
      assert buffer[..1 + stackSize] == [stackSize] + Delims()[..stackSize];
      n := WriteIndents(buffer, 1 + stackSize);
      assert buffer[..n] == buffer[..1 + stackSize] + buffer[1 + stackSize..n];
      assert Stacks() == st;
      assert StoredDelimiterCount(st) == stackSize;
      assert StoredIndentCount(st, buffer.Length) == n - 1 - stackSize;
    }

    /** Lines 107-112: the low byte of each indent entry above the bottom one, from
        `buffer[start]` on, for as long as the buffer has room. */
    method WriteIndents(buffer: array<Byte>, start: nat) returns (n: nat)
      requires Valid() && start <= buffer.Length
      modifies buffer
      ensures start <= n <= buffer.Length
      ensures n - start == Min(indentLen - 1, buffer.Length - start)
      ensures buffer[..start] == old(buffer[..start])
      ensures buffer[start..n] == LowBytes(Indents(), 1, 1 + (n - start))
      ensures buffer[n..] == old(buffer[n..])
    {
      var i := start;
      var iter := 1;
      while iter != indentLen && i < buffer.Length
        invariant 1 <= iter <= indentLen
        invariant i == start + iter - 1 <= buffer.Length
        invariant buffer[..start] == old(buffer[..start])
        invariant buffer[start..i] == LowBytes(Indents(), 1, iter)
        invariant buffer[i..] == old(buffer[i..])
        decreases indentLen - iter
      {
        buffer[i] := LowByte(indentStack[iter]);
        assert buffer[start..i + 1] == buffer[start..i] + [LowByte(Indents()[iter])];
        i := i + 1;
        iter := iter + 1;
      }
      n := i;
    }

    /** The `memcpy` of the bottom `k` delimiters to `buffer[1..1 + k]`. */
    method CopyDelimiters(buffer: array<Byte>, k: nat)
      requires Sound() && buffer != delimStack
      requires k <= delimLen && 1 + k <= buffer.Length
      modifies buffer
      ensures buffer[..1] == old(buffer[..1])
      ensures buffer[1..1 + k] == Delims()[..k]
      ensures buffer[1 + k..] == old(buffer[1 + k..])
    {
      forall j | 0 <= j < k {
        buffer[1 + j] := delimStack[j];
      }
    }

    /** `scanner_deserialize` from the first `length` bytes of `buffer`. */
    method Deserialize(buffer: seq<Byte>, length: nat, signedChar: bool)
      requires Sound()
      requires length <= |buffer|
      requires length > 0 ==> 1 + buffer[0] <= |buffer|
      modifies this, indentStack, delimStack
      ensures Valid()
      ensures Stacks() == DeserializeSpec(buffer, length, signedChar)
      ensures indentStack == old(indentStack) || fresh(indentStack)
      ensures delimStack == old(delimStack) || fresh(delimStack)
    {
      delimLen := 0;
      indentLen := 0;
      PushIndentLength(0);
      assert Indents() == [0];
      if length > 0 {
        var count: nat := buffer[0];
        ReadDelimiters(buffer, count);
        ReadIndentEntries(buffer, 1 + count, length, signedChar);
      }
      assert Indents()[0] == 0;
    }

    /** Lines 125-130: the delimiter stack is reallocated to exactly `count` entries
        and filled from `buffer[1..1 + count]`. */
    method ReadDelimiters(buffer: seq<Byte>, count: nat)
      requires Sound() && 1 + count <= |buffer|
      modifies this
      ensures Sound() && fresh(delimStack)
      ensures Delims() == buffer[1..1 + count]
      ensures indentStack == old(indentStack) && indentLen == old(indentLen) && indentCap == old(indentCap)
    {
      delimStack := Realloc(delimStack, count);
      delimLen, delimCap := count, count;
      forall j | 0 <= j < count {
        delimStack[j] := buffer[1 + j];
      }
    }

    /** Lines 132-134: one indent entry is pushed per byte of `buffer[start..length]`. */
    method ReadIndentEntries(buffer: seq<Byte>, start: nat, length: nat, signedChar: bool)
      requires Sound() && start <= |buffer| && length <= |buffer|
      modifies this, indentStack
      ensures Sound()
      ensures Indents() == old(Indents()) + ReadIndents(buffer, start, length, signedChar)
      ensures indentStack == old(indentStack) || fresh(indentStack)
      ensures delimStack == old(delimStack) && delimLen == old(delimLen) && delimCap == old(delimCap)
    {
      var i := start;
      while i < length
        invariant Sound() && start <= i <= |buffer|
        invariant i > start ==> i <= length
        invariant Indents() == old(Indents()) + ReadIndents(buffer, start, i, signedChar)
        invariant indentStack == old(indentStack) || fresh(indentStack)
        invariant delimStack == old(delimStack) && delimLen == old(delimLen) && delimCap == old(delimCap)
      {
        PushIndentLength(CharToU16(buffer[i], signedChar));
        i := i + 1;
      }
    }

    /** Lines 152-220: the string-content loop inside the innermost open string.
        `done` says that the scan returns `found` here; otherwise it goes on. */
    method ScanStringContent(lexer: Lexer) returns (done: bool, found: bool)
      requires Valid() && delimLen != 0
      modifies this, lexer
      ensures Valid() && indentStack == old(indentStack) && delimStack == old(delimStack)
      ensures var out := ContentLoop(lexer.input, old(Delims())[old(delimLen) - 1], old(lexer.State()), false);
        && done == out.Returned?
        && lexer.State() == out.lex
        && (done ==> found == out.found)
        && Stacks() == if done && out.popped then old(Stacks()).(delimiters := old(Delims())[..old(delimLen) - 1])
                       else old(Stacks())
    {
      var delimiter := delimStack[delimLen - 1];
      var hasContent := false;
      ghost var l0 := lexer.State();
      while lexer.Lookahead() != 0
        invariant ContentLoop(lexer.input, delimiter, lexer.State(), hasContent)
          == ContentLoop(lexer.input, delimiter, l0, false)
        invariant unchanged(this)
        modifies this, lexer
        decreases |lexer.input| - lexer.pos
      {
        var stop, popped;
        stop, found, popped := ContentStepAt(lexer, delimiter, hasContent);
        if stop {
          if popped {
            delimLen := delimLen - 1;
          }
          return true, found;
        }
        hasContent := true;
      }
      return false, false;
    }

    /** One pass of the loop body of lines 157-218. When the source returns, `stop`
        is set, `found` is its return value and `popped` says that it popped the
        delimiter (done by the caller). */
    static method ContentStepAt(lexer: Lexer, delimiter: Delimiter, hasContent: bool)
      returns (stop: bool, found: bool, popped: bool)
      requires lexer.Lookahead() != 0
      modifies lexer
      ensures var s := ContentStepOf(lexer.input, delimiter, old(lexer.State()), hasContent);
        && stop == s.Stop?
        && (s.Continue? ==> lexer.State() == s.next)
        && (s.Stop? ==> s.outcome == Returned(found, lexer.State(), popped))
    {
      var endCharacter := EndCharacter(delimiter);
      stop, found, popped := false, false, false;
      if lexer.Lookahead() == '{' as int && IsFormat(delimiter) {
        lexer.MarkEnd();
        lexer.Advance(false);
        if lexer.Lookahead() == '{' as int {
          lexer.Advance(false);
        } else {
          lexer.resultSymbol := StringContent;
          return true, hasContent, false;
        }
      } else if lexer.Lookahead() == '\\' as int {
        if IsRaw(delimiter) {
          lexer.Advance(false);
        } else if IsBytes(delimiter) {
          lexer.MarkEnd();
          lexer.Advance(false);
          var la := lexer.Lookahead();
          if la == 'N' as int || la == 'u' as int || la == 'U' as int {
            lexer.Advance(false);
          } else {
            lexer.resultSymbol := StringContent;
            return true, hasContent, false;
          }
        } else {
          lexer.MarkEnd();
          lexer.resultSymbol := StringContent;
          return true, hasContent, false;
        }
      } else if lexer.Lookahead() == endCharacter {
        if IsTriple(delimiter) {
          lexer.MarkEnd();
          lexer.Advance(false);
          if lexer.Lookahead() == endCharacter {
            lexer.Advance(false);
            if lexer.Lookahead() == endCharacter {
              if hasContent {
                lexer.resultSymbol := StringContent;
              } else {
                lexer.Advance(false);
                lexer.MarkEnd();
                popped := true;
                lexer.resultSymbol := StringEnd;
              }
              return true, true, popped;
            }
          }
        } else {
          if hasContent {
            lexer.resultSymbol := StringContent;
          } else {
            lexer.Advance(false);
            popped := true;
            lexer.resultSymbol := StringEnd;
          }
          lexer.MarkEnd();
          return true, true, popped;
        }
      } else if lexer.Lookahead() == '\n' as int && hasContent && !IsTriple(delimiter) {
        return true, false, false;
      }
      lexer.Advance(false);
    }

    /** Lines 227-267: the layout loop, measuring the indentation of the last line
        and the indentation of the first comment. `ok` is false when a backslash is
        not followed by white space (`isSpace` is `iswspace`). */
    static method ScanLayout(lexer: Lexer, isSpace: int -> bool)
      returns (ok: bool, foundEndOfLine: bool, indentLength: u32, firstComment: int)
      modifies lexer
      ensures var out := LayoutLoop(lexer.input, isSpace, old(lexer.State()), false, 0, -1);
        && lexer.State() == out.lex
        && (ok <==> out.LayoutDone?)
        && (ok ==> out == LayoutDone(lexer.State(), foundEndOfLine, indentLength, firstComment))
    {
      foundEndOfLine, indentLength, firstComment := false, 0, -1;
      ghost var l0 := lexer.State();
      while true
        invariant LayoutLoop(lexer.input, isSpace, lexer.State(), foundEndOfLine, indentLength, firstComment)
          == LayoutLoop(lexer.input, isSpace, l0, false, 0, -1)
        decreases |lexer.input| - lexer.pos
      {
        var stop;
        stop, ok, foundEndOfLine, indentLength, firstComment :=
          LayoutStepAt(lexer, isSpace, foundEndOfLine, indentLength, firstComment);
        if stop {
          return;
        }
      }
    }

    /** One pass of the body of the layout loop. `stop` says that the loop ends, by
        `break` when `ok` holds and by `return false` otherwise. */
    static method LayoutStepAt(lexer: Lexer, isSpace: int -> bool, eol: bool, indent: u32, fc: int)
      returns (stop: bool, ok: bool, foundEndOfLine: bool, indentLength: u32, firstComment: int)
      modifies lexer
      ensures var s := LayoutStepOf(lexer.input, isSpace, old(lexer.State()), eol, indent, fc);
        && stop == s.Finish?
        && (s.Next? ==> s == Next(lexer.State(), foundEndOfLine, indentLength, firstComment))
        && (s.Finish? ==> lexer.State() == s.outcome.lex && (ok <==> s.outcome.LayoutDone?))
        && (s.Finish? && ok ==> s.outcome == LayoutDone(lexer.State(), foundEndOfLine, indentLength, firstComment))
    {
      stop, ok, foundEndOfLine, indentLength, firstComment := false, true, eol, indent, fc;
      var la := lexer.Lookahead();
      if la == '\n' as int {
        foundEndOfLine := true;
        indentLength := 0;
        lexer.Advance(true);
      } else if la == ' ' as int {
        indentLength := Wrap32(indentLength + 1);
        lexer.Advance(true);
      } else if la == '\r' as int {
        indentLength := 0;
        lexer.Advance(true);
      } else if la == '\t' as int {
        indentLength := Wrap32(indentLength + 8);
        lexer.Advance(true);
      } else if la == '#' as int {
        if firstComment == -1 {
          firstComment := ToInt32(indentLength);
        }
        ghost var lc := lexer.State();
        while lexer.Lookahead() != 0 && lexer.Lookahead() != '\n' as int
          invariant SkipComment(lexer.input, lexer.State()) == SkipComment(lexer.input, lc)
          decreases |lexer.input| - lexer.pos
        {
          lexer.Advance(true);
        }
        lexer.Advance(true);
        indentLength := 0;
      } else if la == '\\' as int {
        lexer.Advance(true);
        if isSpace(lexer.Lookahead()) {
          lexer.Advance(true);
        } else {
          return true, false, foundEndOfLine, indentLength, firstComment;
        }
      } else if la == 0x0C {  // form feed
        indentLength := 0;
        lexer.Advance(true);
      } else if la == 0 {
        indentLength := 0;
        foundEndOfLine := true;
        stop := true;
      } else {
        stop := true;
      }
    }

    /** Lines 302-356: prefix letters, then an opening quote; a delimiter with an
        end character is pushed. */
    method ScanStringStart(lexer: Lexer) returns (found: bool)
      requires Valid()
      modifies this, delimStack, lexer
      ensures Valid() && indentStack == old(indentStack)
      ensures delimStack == old(delimStack) || fresh(delimStack)
      ensures ScanResult(found, lexer.State(), Stacks()) == StringStartScan(lexer.input, old(Stacks()), old(lexer.State()))
    {
      var delimiter, hasFlags := PrefixFlags(lexer);
      delimiter := OpenQuoteAt(lexer, delimiter);
      if EndCharacter(delimiter) != 0 {
        PushDelimiter(delimiter);
        lexer.resultSymbol := StringStart;
        return true;
      } else if hasFlags {
        return false;
      }
      return false;
    }

    /** Lines 303-318: the prefix letters, read into flags that start at 0 where the
        source leaves `Delimiter delimiter;` uninitialised. */
    static method PrefixFlags(lexer: Lexer) returns (delimiter: Delimiter, hasFlags: bool)
      modifies lexer
      ensures (lexer.State(), delimiter, hasFlags) == PrefixLoop(lexer.input, old(lexer.State()), 0, false)
    {
      delimiter, hasFlags := 0, false;
      ghost var l0 := lexer.State();
      while lexer.Lookahead() != 0
        invariant PrefixLoop(lexer.input, lexer.State(), delimiter, hasFlags) == PrefixLoop(lexer.input, l0, 0, false)
        decreases |lexer.input| - lexer.pos
      {
        var la := lexer.Lookahead();
        if la == 'f' as int || la == 'F' as int {
          delimiter := WithFormat(delimiter);
        } else if la == 'r' as int || la == 'R' as int {
          delimiter := WithRaw(delimiter);
        } else if la == 'b' as int || la == 'B' as int {
          delimiter := WithBytes(delimiter);
        } else if la != 'u' as int && la != 'U' as int {
          break;
        }
        hasFlags := true;
        lexer.Advance(false);
      }
    }

    /** Lines 320-348: the opening quote or quotes. */
    static method OpenQuoteAt(lexer: Lexer, d: Delimiter) returns (delimiter: Delimiter)
      modifies lexer
      ensures (lexer.State(), delimiter) == OpenQuote(lexer.input, old(lexer.State()), d)
    {
      delimiter := d;
      var la := lexer.Lookahead();
      if la == BackQuoteChar {
        delimiter := SetEndCharacter(delimiter, BackQuoteChar);
        lexer.Advance(false);
        lexer.MarkEnd();
      } else if la == SingleQuoteChar || la == DoubleQuoteChar {
        // The single-quote and double-quote branches differ only in the character.
        delimiter := SetEndCharacter(delimiter, la);
        lexer.Advance(false);
        lexer.MarkEnd();
        if lexer.Lookahead() == la {
          lexer.Advance(false);
          if lexer.Lookahead() == la {
            lexer.Advance(false);
            lexer.MarkEnd();
            delimiter := WithTriple(delimiter);
          }
        }
      }
    }

    /** `scanner_scan`: recognises at most one token and reports whether it did. */
    method Scan(lexer: Lexer, valid: seq<bool>, isSpace: int -> bool) returns (found: bool)
      requires Valid() && |valid| >= TokenCount
      modifies this, indentStack, delimStack, lexer
      ensures Valid()
      ensures ScanResult(found, lexer.State(), Stacks())
        == ScanSpec.Scan(lexer.input, isSpace, valid, old(Stacks()), old(lexer.State()))
    {
      if valid[StringContent] && !valid[Indent] && delimLen != 0 {
        var done;
        done, found := ScanStringContent(lexer);
        if done {
          return;
        }
      }
      lexer.MarkEnd();
      var ok, foundEndOfLine, indentLength, firstComment := ScanLayout(lexer, isSpace);
      if !ok {
        return false;
      }
      found := ScanToken(lexer, valid, foundEndOfLine, indentLength, firstComment);
    }

    /** Lines 269-359, once the layout loop has finished. */
    method ScanToken(lexer: Lexer, valid: seq<bool>, foundEndOfLine: bool, indentLength: u32, firstComment: int)
      returns (found: bool)
      requires Valid() && |valid| >= TokenCount
      modifies this, indentStack, delimStack, lexer
      ensures Valid()
      ensures ScanResult(found, lexer.State(), Stacks())
        == Decide(lexer.input, valid, old(Stacks()), old(lexer.State()), foundEndOfLine, indentLength, firstComment)
    {
      if foundEndOfLine {
        if indentLen != 0 {
          var current := indentStack[indentLen - 1];
          if valid[Indent] && indentLength > current {
            PushIndentLength(indentLength % 0x1_0000);
            lexer.resultSymbol := Indent;
            return true;
          }
          if valid[Dedent] && indentLength < current && firstComment < current {
            indentLen := indentLen - 1;
            lexer.resultSymbol := Dedent;
            return true;
          }
        }
        if valid[Newline] {
          lexer.resultSymbol := Newline;
          return true;
        }
      }
      if firstComment == -1 && valid[StringStart] {
        found := ScanStringStart(lexer);
        return;
      }
      return false;
    }
  }
}
