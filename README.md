# treesitter: the Go wrapper and the Python external scanner, in Dafny

This project models two parts of the `treesitter` Go module, which wraps the
native tree-sitter parsing engine (transpiled to Go) and bundles grammars.

* **The wrapper's object discipline** (`bindings.go`, module `Bindings`).
  Several objects own native state: a parser, a tree, a tree cursor, a query
  and a query cursor, each with its libc TLS context. Every piece of native
  state is a `Handle`, and `Release` on a `Handle` demands that it is still
  live. So each `Close` method is proved to free everything it owns exactly
  once, however often it is called. The modelled parts are:
  * each tree's node cache, which gives every native node value one `Node`
    object, whether the node is reached as the root, as a parent, as a cursor's
    current node or as a query capture;
  * the conversion of query results;
  * the callback registry `readFuncsMap`;
  * the message of `QueryError`, proved to lose neither the kind nor the offset;
  * the conversion of an edit description to the native record.
* **The Python grammar's external scanner** (`internal/python/patch/scanner.c`).
  This C code keeps two stacks: indentation widths and open-string delimiter
  bytes. On each call it recognises at most one of NEWLINE, INDENT, DEDENT,
  STRING_START, STRING_CONTENT and STRING_END. It is modelled twice:
  * `ScanSpec` states it as pure functions over the input and the lexer state;
    `Delimiters` covers the delimiter byte and `Serialization` the saved byte
    format.
  * `PythonScanner` is the imperative C code. It has the two stacks as arrays
    with their lengths and capacities, exact-size `realloc`, and the loops of
    `scanner_scan`, `scanner_serialize` and `scanner_deserialize`. Each method
    is proved to compute the corresponding `ScanSpec` or `Serialization` function.

  `ScanLemmas` proves what one scan promises:
  * the stacks change only when a token is accepted, by exactly one push or pop;
  * tokens are returned only where they are valid;
  * the indent stack keeps its 0 at the bottom, and stays strictly increasing
    while indentation fits in 16 bits (so on logical lines shorter than 8192
    code points);
  * STRING_END consumes exactly the closing delimiter;
  * STRING_CONTENT is never empty;
  * STRING_START pushes the delimiter of the quote it read, triple exactly when
    three equal quotes open the string.

  `Serialization` proves the save/restore round trip and where it ends.

C and Go details the model makes explicit:

* `indent_length` wraps modulo 2^32.
* Casts to `int32_t` are modelled, and so is the truncation to `uint16_t` when
  an indent is pushed.
* Only the low byte of an indent entry is saved. A `char` may be signed when it
  is read back: the parameter `signedChar` chooses, and a byte of 128 or more then
  becomes a large `uint16_t`.
* The saved delimiter count is clamped to 255.
* The lexer's lookahead is 0 at the end of the input, and `advance` does nothing
  there. A skipping `advance` moves the start of the token.

## Model

| member | source | states |
|---|---|---|
| `Bindings.Parser.constructor` | bindings.go:37-43 | `NewParser` owns a fresh TLS context and a fresh native parser, both live |
| `Bindings.Parser.Close` | bindings.go:148-155 | the first call frees the native parser and the TLS context; a later call changes nothing |
| `Bindings.Parser.NewTree` | bindings.go:181-187 | a new tree shares the parser's TLS context, keeps the parser alive, owns the native tree and starts with an empty node cache |
| `Bindings.Parser.Parse` | bindings.go:68-80 | parsing yields a fresh, open tree of this parser with an empty cache |
| `Bindings.BaseTree.Close` | bindings.go:229-235 | the first call deletes the native tree only, leaving the parser's TLS context alone; a later call changes nothing |
| `Bindings.Tree.CachedNode` | bindings.go:214-226 | null for the null node; the cached object on a hit; otherwise a new `Node` for this value and tree, added as the one new cache entry; the cache keeps one object per value |
| `Bindings.Tree.Copy` | bindings.go:204-206 | the copy is a fresh tree of the same parser with its own empty cache |
| `Bindings.Tree.RootNode` | bindings.go:209-212 | the root goes through the cache, which only gains entries |
| `Bindings.Node.Parent` | bindings.go:374-377 | the parent goes through the node's tree's cache |
| `Bindings.IdentityAcrossAccessors` | bindings.go:209-226 | the same native node reached as the root, as a parent and as a cursor's current node is one and the same non-null `Node` of that tree |
| `Bindings.TreeCursor.constructor` | bindings.go:461-471 | a new cursor reports nodes through the tree of the node it starts on |
| `Bindings.TreeCursor.Close` | bindings.go:475-482 | the first call deletes the native cursor and frees its memory block; a later call changes nothing |
| `Bindings.TreeCursor.Reset` | bindings.go:485-488 | after a reset, nodes are reported through the new node's tree |
| `Bindings.TreeCursor.CurrentNode` | bindings.go:491-494 | the current node goes through the cursor's tree's cache |
| `Bindings.EditInput.ToC` | bindings.go:246-265 | as written, every field is copied to the native record except the new end point, which is filled from the old end point |
| `Bindings.EditInput.ToCIntended` | bindings.go:246-265 | the intended conversion is undone by reading the record back |
| `Bindings.ToCRoundTripsOnlyUnmovedEnds` | bindings.go:246-265 | as written, an edit survives the conversion exactly when its end point does not move |
| `Bindings.InsertedLineIsReportedAsUnmoved` | bindings.go:260-263 | inserting a line at the start of a file is reported to the engine with an unmoved end point |
| `Bindings.FromCThenToCIntended` | bindings.go:246-265 | reading a native record back and converting it the intended way gives the record again, so `TSInputEdit.FromC` and `ToCIntended` are inverse |
| `Bindings.ToCIntendedInjective` | bindings.go:246-265 | the intended conversion keeps distinct edits distinct |
| `Bindings.QueryError.Error` | bindings.go:555-575 | the message is empty exactly for `QueryErrorNone` |
| `Bindings.ParseMessageAsNeedsFirstLetter` | bindings.go:555-575 | a message that starts with another letter is not read as that kind |
| `Bindings.ParseMessageAsOwnKind` | bindings.go:555-575 | the offset is read back from the message of every error kind |
| `Bindings.ParseMessageOfError` | bindings.go:555-575 | the kind word and the offset are both recovered from every non-empty message |
| `Bindings.FirstParseFindsKind` | bindings.go:555-575 | the kinds are told apart by their first letters |
| `Bindings.KindNamesDistinct` | bindings.go:539-575 | the four known error kinds have distinct words, none of them "unknown" |
| `Bindings.Query.Close` | bindings.go:616-623 | the first call deletes the native query and closes its TLS context; a later call changes nothing |
| `Bindings.CBytes` | bindings.go:819-825 | the C buffer is fresh and holds exactly the slice's bytes |
| `Bindings.NewQuery` | bindings.go:586-613 | the result is exactly one of a live query and an error; there is an error exactly when the engine reports one; the error carries the engine's offset and kind; a query owns a fresh TLS context and native query, both live; on an error the fresh TLS context made for the query is closed |
| `Bindings.PredicatesForPattern` | bindings.go:650-666 | exactly `count` steps, each copying the type and value id of the native step at the same index |
| `Bindings.GoStringN` | bindings.go:827-838 | the empty string for a null pointer, otherwise exactly the `n` bytes in memory from the pointer on |
| `Bindings.NameForId` | bindings.go:668-680 | capture names and string values are the engine's bytes of the reported length |
| `Bindings.QueryCursor.constructor` | bindings.go:692-702 | a new query cursor owns a fresh TLS context and a fresh native cursor, and has no tree yet |
| `Bindings.QueryCursor.Close` | bindings.go:724-731 | the first call deletes the native cursor and closes its TLS context; a later call changes nothing |
| `Bindings.QueryCursor.Exec` | bindings.go:705-708 | captures are resolved through the tree of the node the query runs on |
| `Bindings.QueryCursor.QueryMatchFromC` | bindings.go:746-761 | id and pattern index are copied; exactly `captureCount` captures, in native order, each with its index and the cached node for its value; the cache only gains entries, and only for captured values |
| `Bindings.QueryCursor.NextMatch` | bindings.go:763-774 | a match is returned exactly when the engine produced one; it then carries the engine's id and pattern index and every capture with its index and cached node (`Converted`), and the cache only gains entries; with no match the cache is untouched; the temporary match block is allocated fresh, ends freed and is freed exactly once (`FreesEachOnce`) |
| `Bindings.QueryCursor.NextCapture` | bindings.go:776-786 | as `NextMatch`, together with the index of the capture being delivered, and 0 when there is none; the match block and the capture-index block are distinct, both end freed, and each is freed exactly once, in the order the corrected defers run |
| `Bindings.Free` | bindings.go:769 | `libc.Xfree` needs a live block, leaves it freed and records the free |
| `Bindings.RunDefers` | bindings.go:776-786 | deferred calls run in reverse order of declaration, each exactly once |
| `Bindings.NextCaptureDeferredFrees` | bindings.go:777-780 | as written, the two defers, run last first, free two blocks and neither is the capture-index block |
| `Bindings.FreesEachOnceMeans` | bindings.go:776-786 | for blocks allocated once each, being freed exactly once means no block freed twice, none leaked and nothing else freed |
| `Bindings.NextCaptureFreesMatchTwice` | bindings.go:777-780 | as written, the deferred calls free the match block twice and never free the capture-index block |
| `Bindings.ReadFuncsMap.constructor` | bindings.go:19 | the registry starts empty with the counter at 0 |
| `Bindings.ReadFuncsMap.Register` | bindings.go:796-803 | the token is the counter plus one, larger than every token issued before; it now maps to the callback; no other token changes |
| `Bindings.ReadFuncsMap.Get` | bindings.go:812-817 | a lookup finds a callback exactly for a registered token, and such a token is one already issued, between 1 and the counter |
| `Bindings.ReadFuncsMap.Unregister` | bindings.go:805-810 | the token maps to nothing afterwards; no other token and not the counter changes |
| `Decimal.NatToString` | bindings.go:559-574 | `%d` of an offset is a non-empty string of digits, starting with 0 only for 0, one digit long exactly below 10 |
| `Decimal.ParseNat` | bindings.go:559-574 | a string is read as a number exactly when it is a non-empty string of digits |
| `Decimal.DigitsValueOfNatToString` | bindings.go:559-574 | the digits of `%d` have exactly the value printed |
| `Decimal.ParseNatOfNatToString` | bindings.go:559-574 | reading back `%d` gives the number printed |
| `Decimal.NatToStringInjective` | bindings.go:559-574 | distinct offsets print differently |
| `Delimiters.WithSingleQuote` | internal/python/patch/scanner.c:53-57 | or-ing in `SingleQuote` sets that bit and keeps every other bit |
| `Delimiters.WithDoubleQuote` | internal/python/patch/scanner.c:58-60 | or-ing in `DoubleQuote` sets that bit and keeps every other bit |
| `Delimiters.WithBackQuote` | internal/python/patch/scanner.c:61-63 | or-ing in `BackQuote` sets that bit and keeps every other bit |
| `Delimiters.WithRaw` | internal/python/patch/scanner.c:309-310 | or-ing in `Raw` sets that bit and keeps every other bit |
| `Delimiters.WithFormat` | internal/python/patch/scanner.c:307-308 | or-ing in `Format` sets that bit and keeps every other bit |
| `Delimiters.WithTriple` | internal/python/patch/scanner.c:333 | or-ing in `Triple` sets that bit and keeps every other bit |
| `Delimiters.WithBytes` | internal/python/patch/scanner.c:311-312 | or-ing in `Bytes` sets that bit and keeps every other bit |
| `Delimiters.WithRawTests` | internal/python/patch/scanner.c:30-44 | `delimiter_is_raw` holds after or-ing in `Raw`, and the format, triple and bytes tests keep their answers |
| `Delimiters.WithFormatTests` | internal/python/patch/scanner.c:30-44 | `delimiter_is_format` holds after or-ing in `Format`, and the raw, triple and bytes tests keep their answers |
| `Delimiters.WithTripleTests` | internal/python/patch/scanner.c:30-44 | `delimiter_is_triple` holds after or-ing in `Triple`, and the raw, format and bytes tests keep their answers |
| `Delimiters.WithBytesTests` | internal/python/patch/scanner.c:30-44 | `delimiter_is_bytes` holds after or-ing in `Bytes`, and the raw, format and triple tests keep their answers |
| `Delimiters.SetEndCharacterKeepsTests` | internal/python/patch/scanner.c:53-67 | setting the quote bit leaves the raw, format, triple and bytes tests answering as they did |
| `Delimiters.SetEndCharacter` | internal/python/patch/scanner.c:53-67 | the bit of the given quote is set, no quote bit is cleared, and the prefix and triple bits are kept |
| `Delimiters.EndCharacter` | internal/python/patch/scanner.c:46-51 | the end character is 0 or one of the three quotes |
| `Delimiters.EndCharacterZeroIff` | internal/python/patch/scanner.c:46-51 | the end character is 0 exactly when no quote bit is set |
| `Delimiters.EndCharacterOfSet` | internal/python/patch/scanner.c:53-67 | setting a quote on flags without one makes it the end character and keeps the prefix and triple bits |
| `Delimiters.EndCharacterOfLowBits` | internal/python/patch/scanner.c:46-51 | the end character depends on the three quote bits only |
| `Delimiters.QuoteBitsOfLowBits` | internal/python/patch/scanner.c:18-26 | each quote bit is a bit of the low three bits |
| `ScanSpec.Lookahead` | internal/python/patch/scanner.c:156 | the lookahead is the code point at the position, and is non-zero only inside the input |
| `ScanSpec.Advance` | internal/python/patch/scanner.c:159 | one code point forward inside the input, nothing at its end; a skip moves the token start along; end mark and symbol are kept |
| `ScanSpec.MarkEnd` | internal/python/patch/scanner.c:158 | the token's end becomes the current position, and nothing else changes |
| `ScanSpec.ContentStepOf` | internal/python/patch/scanner.c:157-218 | a pass of the string-content loop either goes on strictly further in the input or returns, popping only when it returns STRING_END |
| `ScanSpec.ContentLoop` | internal/python/patch/scanner.c:156-219 | the loop runs out only at a lookahead of 0, and pops the delimiter only together with an accepted STRING_END |
| `ScanSpec.SkipComment` | internal/python/patch/scanner.c:245-247 | the comment loop never moves back, stays in the input, and moves on unless it sees a newline or the end of the input; once it has moved, the token start has moved with it (the comment is skipped) |
| `ScanSpec.LayoutStepOf` | internal/python/patch/scanner.c:228-266 | a pass of the layout loop that does not end it moves strictly further in the input; one that ends it ends as `Stopped` says |
| `ScanSpec.LayoutLoop` | internal/python/patch/scanner.c:227-267 | the loop succeeds only at a code point that is none of its layout characters, and fails only right after a backslash that white space does not follow |
| `ScanSpec.PrefixLoop` | internal/python/patch/scanner.c:306-318 | the loop stops at the first code point that is not a prefix letter, and `has_flags` is set exactly when a letter was consumed |
| `ScanSpec.OpenQuote` | internal/python/patch/scanner.c:320-348 | the opening quotes are read without skipping and without touching the symbol, at most three code points |
| `ScanSpec.StringStartScan` | internal/python/patch/scanner.c:302-357 | from cleared flags: the indent stack is kept; on failure both stacks are kept; on success the symbol is STRING_START and one delimiter is pushed |
| `ScanSpec.StringStartScanFrom` | internal/python/patch/scanner.c:302-357 | the same, from whatever value the uninitialised flags hold |
| `ScanSpec.Decide` | internal/python/patch/scanner.c:269-359 | on failure the stacks are kept; an accepted token is valid; only STRING_START changes the delimiters and only INDENT or DEDENT the indents |
| `ScanSpec.AfterContent` | internal/python/patch/scanner.c:222-359 | the same, for the layout loop followed by the choice of token |
| `ScanSpec.Scan` | internal/python/patch/scanner.c:151-360 | a failed scan keeps both stacks, and only an accepted INDENT or DEDENT changes the indent stack |
| `Serialization.StoredDelimiterCount` | internal/python/patch/scanner.c:100-102 | the delimiter count saved is the stack height clamped to 255 |
| `Serialization.StoredIndentCount` | internal/python/patch/scanner.c:107-112 | the indent entries saved above the bottom one are as many as fit after the delimiters: all of them, or enough to fill the buffer |
| `Serialization.CharToU16` | internal/python/patch/scanner.c:133 | reading a saved byte back through `char` keeps its low byte; it is the byte itself unless `char` is signed and the byte is at least 128, which sign-extends it to 65408 or more |
| `Serialization.LowBytes` | internal/python/patch/scanner.c:107-112 | one byte is written per indent entry in the range |
| `Serialization.SerializeSpec` | internal/python/patch/scanner.c:97-115 | the saved form is the clamped delimiter count, followed by that many delimiters and the indent bytes that fit |
| `Serialization.ReadIndents` | internal/python/patch/scanner.c:132-134 | one indent entry is read per byte in the range |
| `Serialization.DeserializeSpec` | internal/python/patch/scanner.c:117-136 | the restored indent stack always has 0 at the bottom; an empty buffer gives `[0]` and no delimiters; otherwise the first byte is the delimiter count |
| `Serialization.SerializeFits` | internal/python/patch/scanner.c:110 | the saved form never exceeds the buffer |
| `Serialization.SmallIndentSurvives` | internal/python/patch/scanner.c:133 | an indent entry below 128 survives its trip through a `char`, whatever the signedness |
| `Serialization.ReadIndentsOfLowBytes` | internal/python/patch/scanner.c:107-134 | the bytes written for indent entries below 128 read back as those entries |
| `Serialization.ReadIndentsPrefix` | internal/python/patch/scanner.c:132-134 | reading indent entries depends only on the bytes up to `length` |
| `Serialization.RoundTrip` | internal/python/patch/scanner.c:97-136 | restoring a saved state gives it back, when there are at most 255 delimiters, every indent entry is below 128 and everything fits in the buffer |
| `Serialization.SerializeOfRestorable` | internal/python/patch/scanner.c:97-115 | such a state is saved in full |
| `Serialization.RoundTripClampsDelimiters` | internal/python/patch/scanner.c:100-105 | with more than 255 open strings, only the 255 outermost delimiters come back |
| `Serialization.WideIndentDoesNotRoundTrip` | internal/python/patch/scanner.c:133 | a 200-column indent comes back as 65480 through a signed `char` |
| `PythonScanner.Lexer.Advance` | internal/python/patch/scanner.c:159 | `advance` moves one code point forward, except at the end of the input; skipping also moves the token start |
| `PythonScanner.Lexer.MarkEnd` | internal/python/patch/scanner.c:158 | `mark_end` records the current position as the token's end |
| `PythonScanner.Scanner.constructor` | internal/python/patch/scanner.c:138-149 | `new_scanner` yields an indent stack `[0]` and no delimiters |
| `PythonScanner.Scanner.Realloc` | internal/python/patch/scanner.c:82 | `realloc` to `n` elements keeps the first `min(old, n)` of them |
| `PythonScanner.Scanner.PushIndentLength` | internal/python/patch/scanner.c:79-86 | the entry goes on top, the rest of the stack is kept, the capacity grows to the length exactly when it is exceeded, and the delimiter stack is untouched |
| `PythonScanner.Scanner.PushDelimiter` | internal/python/patch/scanner.c:88-95 | the delimiter goes on top, the rest of the stack is kept, the capacity grows to the length exactly when it is exceeded, and the indent stack is untouched |
| `PythonScanner.Scanner.Serialize` | internal/python/patch/scanner.c:97-115 | the bytes written are `SerializeSpec` of the stacks, and nothing after them is touched |
| `PythonScanner.Scanner.WriteIndents` | internal/python/patch/scanner.c:107-112 | the loop writes the low byte of each indent entry above the bottom one until the buffer is full |
| `PythonScanner.Scanner.CopyDelimiters` | internal/python/patch/scanner.c:104-105 | the `memcpy` puts the bottom `k` delimiters after the count byte |
| `PythonScanner.Scanner.Deserialize` | internal/python/patch/scanner.c:117-136 | the restored stacks are `DeserializeSpec` of the buffer, and the indent stack is valid |
| `PythonScanner.Scanner.ReadDelimiters` | internal/python/patch/scanner.c:125-130 | the delimiter stack is reallocated to exactly the count and holds the bytes after the count |
| `PythonScanner.Scanner.ReadIndentEntries` | internal/python/patch/scanner.c:132-134 | one indent entry is pushed per remaining byte |
| `PythonScanner.Scanner.ScanStringContent` | internal/python/patch/scanner.c:152-220 | the loop leaves the lexer and the delimiter stack as `ContentLoop` says, popping the delimiter only with STRING_END |
| `PythonScanner.Scanner.ContentStepAt` | internal/python/patch/scanner.c:157-218 | one pass of the loop body is `ContentStepOf` |
| `PythonScanner.Scanner.ScanLayout` | internal/python/patch/scanner.c:224-267 | the layout loop ends as `LayoutLoop` says, failing exactly on a backslash not followed by white space |
| `PythonScanner.Scanner.LayoutStepAt` | internal/python/patch/scanner.c:228-266 | one pass of the loop body is `LayoutStepOf` |
| `PythonScanner.Scanner.ScanStringStart` | internal/python/patch/scanner.c:302-357 | the prefix, the quotes and the push are `StringStartScan` |
| `PythonScanner.Scanner.PrefixFlags` | internal/python/patch/scanner.c:303-318 | the prefix-letter loop is `PrefixLoop` from cleared flags |
| `PythonScanner.Scanner.OpenQuoteAt` | internal/python/patch/scanner.c:320-348 | the opening quote or quotes are read as `OpenQuote` says |
| `PythonScanner.Scanner.Scan` | internal/python/patch/scanner.c:151-360 | `scanner_scan` returns, leaves the lexer and leaves the stacks exactly as `ScanSpec.Scan` says, and keeps the indent stack valid |
| `PythonScanner.Scanner.ScanToken` | internal/python/patch/scanner.c:269-359 | the token chosen after the layout loop is `Decide` |
| `ScanLemmas.ContentLoopFacts` | internal/python/patch/scanner.c:156-219 | the content loop never skips and stays in the input; it pops only on its first pass, with STRING_END; any other token it accepts is STRING_CONTENT, ending at or after the start, and strictly after it when nothing had been consumed |
| `ScanLemmas.ContentStepFacts` | internal/python/patch/scanner.c:157-218 | the same facts for one pass of the loop body |
| `ScanLemmas.StringEndShape` | internal/python/patch/scanner.c:185-213 | STRING_END consumes the end character once, or three times in a triple-quoted string, and the token ends right after it |
| `ScanLemmas.DoubleBraceTakesNextCharacter` | internal/python/patch/scanner.c:157-218 | after `{{` in a format string, the next character is consumed as content as well |
| `ScanLemmas.FormatStringOfDoubleBraceMissesQuote` | internal/python/patch/scanner.c:157-218 | so `f"{{"` followed by a newline does not end at its closing quote |
| `ScanLemmas.LayoutFacts` | internal/python/patch/scanner.c:227-267 | the layout loop only skips: the end mark and the symbol are kept, the position stays in the input and a token that started where the lexer stood still starts where it stops; indentation plus eight columns per remaining code point never grows |
| `ScanLemmas.LayoutStepFacts` | internal/python/patch/scanner.c:228-266 | the same facts for one pass of the loop body |
| `ScanLemmas.LayoutOverBlanks` | internal/python/patch/scanner.c:232-240 | skipping a run of blanks adds one column per space and eight per tab |
| `ScanLemmas.BlankStep` | internal/python/patch/scanner.c:232-240 | a space adds one column and a tab eight |
| `ScanLemmas.LastLineIndent` | internal/python/patch/scanner.c:228-266 | after a newline, the measured indentation is the width of the blanks opening the next line, and the end of line is recorded |
| `ScanLemmas.EndOfInputEndsLine` | internal/python/patch/scanner.c:260-263 | the end of the input ends the line, with no indentation |
| `ScanLemmas.SkipCommentTo` | internal/python/patch/scanner.c:245-247 | the comment loop stops at the first newline |
| `ScanLemmas.CommentLineSkipped` | internal/python/patch/scanner.c:241-249 | a comment is skipped with the newline after it, which is not counted as an end of line; the indentation restarts at 0 and the first comment's indentation is recorded |
| `ScanLemmas.BackslashWithoutSpaceFails` | internal/python/patch/scanner.c:250-256 | a backslash not followed by white space ends the layout loop in failure |
| `ScanLemmas.PrefixLoopFacts` | internal/python/patch/scanner.c:306-318 | the prefix letters only move forward and change neither the quote bits nor the triple bit |
| `ScanLemmas.PrefixLetterFlags` | internal/python/patch/scanner.c:307-315 | f or F sets the format flag, r or R the raw flag, b or B the bytes flag, and each letter leaves the other two flags as they were |
| `ScanLemmas.PrefixLoopFlags` | internal/python/patch/scanner.c:306-318 | the loop consumes prefix letters only, and afterwards the format flag is set exactly when it was set before or an f or F was consumed; likewise raw with r or R and bytes with b or B |
| `ScanLemmas.OpenQuoteFacts` | internal/python/patch/scanner.c:320-348 | the raw, format and bytes tests answer as before; with a quote at the position, the end character is that quote, the prefix bits are kept, and the end mark follows it or three of it; the triple bit is set exactly when three equal single or double quotes open the string; without a quote nothing changes |
| `ScanLemmas.StringStartFacts` | internal/python/patch/scanner.c:302-357 | STRING_START either opens a string as `OpensString` says (one delimiter with a closing quote pushed, triple exactly when three equal single or double quotes opened it, the end mark after the quote or quotes) or fails without touching the stacks; the token start is kept, and the pushed delimiter's format, raw and bytes flags are exactly those that the prefix letters between the position and the opening quote give (`FlagsFromPrefix`) |
| `ScanLemmas.UninitialisedFlagsOpenString` | internal/python/patch/scanner.c:303 | as written, a leftover quote bit makes an identifier `x` an empty STRING_START that pushes a delimiter |
| `ScanLemmas.StringStartScanFromCleared` | internal/python/patch/scanner.c:303-357 | the scan as written, started from cleared flags, is the corrected `StringStartScan` |
| `ScanLemmas.DecideFacts` | internal/python/patch/scanner.c:269-359 | after the layout loop, only a valid layout token or STRING_START is returned, with its stack effect; on failure the stacks are kept |
| `ScanLemmas.AfterContentFacts` | internal/python/patch/scanner.c:222-359 | the same facts for everything after the string-content loop, with layout tokens ending where that part began |
| `ScanLemmas.ScanStackDiscipline` | internal/python/patch/scanner.c:151-360 | a failed scan keeps both stacks; an accepted token changes them by `StackEffect`: INDENT pushes, DEDENT pops an entry above 0, STRING_START pushes a quoted delimiter, STRING_END pops, NEWLINE and STRING_CONTENT keep both |
| `ScanLemmas.ScanRespectsValidSymbols` | internal/python/patch/scanner.c:151-360 | string tokens are returned only inside a string when STRING_CONTENT is valid and INDENT is not; every other token only when it is valid |
| `ScanLemmas.ScanKeepsIndentBase` | internal/python/patch/scanner.c:269-294 | the indent stack keeps its bottom entry 0 |
| `ScanLemmas.DecideKeepsIncreasing` | internal/python/patch/scanner.c:273-293 | INDENT pushes above the top, and DEDENT pops, so the stack stays strictly increasing while the indentation fits 16 bits |
| `ScanLemmas.IndentTruncationBreaksIncreasing` | internal/python/patch/scanner.c:273-280 | a 65536-column indentation is pushed as 0 on top of 0 |
| `ScanLemmas.LayoutStepShort` | internal/python/patch/scanner.c:228-266 | on short logical lines, one pass keeps the indentation plus eight columns per code point left on the line below 65536 |
| `ScanLemmas.LayoutShort` | internal/python/patch/scanner.c:227-267 | so on short logical lines the layout loop measures fewer than 65536 columns |
| `ScanLemmas.ScanKeepsIncreasing` | internal/python/patch/scanner.c:151-360 | the indent stack stays strictly increasing while every logical line left is shorter than 8192 code points |
| `ScanLemmas.AfterContentIncreasing` | internal/python/patch/scanner.c:222-359 | the same, for the part after the string-content loop |
| `ScanLemmas.ToBreakAtMostRest` | internal/python/patch/scanner.c:227-267 | a logical line never runs past the end of the input |
| `ScanLemmas.ShortLinesOfShortRest` | internal/python/patch/scanner.c:151-360 | fewer than 8192 code points left always give short logical lines |
| `ScanLemmas.ScanStringEnd` | internal/python/patch/scanner.c:185-213 | STRING_END is returned only inside a string, and consumes that string's closing delimiter with nothing after it |
| `ScanLemmas.ScanStringContent` | internal/python/patch/scanner.c:152-220 | STRING_CONTENT is returned only inside a string, starts where the call began and is never empty |
| `ScanLemmas.ScanStringStart` | internal/python/patch/scanner.c:302-357 | a STRING_START is valid where it is returned, and has opened a string as `OpensString` says: one quoted delimiter pushed, ending with its quote or quotes, and triple exactly when three equal single or double quotes opened it; when the scan began at the token start, the delimiter's format, raw and bytes flags are exactly those of the prefix letters from the token start up to the opening quote |
| `ScanLemmas.AfterContentStringStart` | internal/python/patch/scanner.c:222-357 | a STRING_START found after the layout loop takes its flags from the prefix letters that begin at the token start, since the layout loop moves the token start past everything it skips |
| `ScanLemmas.NoStringStartAtEnd` | internal/python/patch/scanner.c:222-357 | at the end of the input no STRING_START is returned |
| `ScanLemmas.ScanLayoutTokensAreEmpty` | internal/python/patch/scanner.c:222-300 | outside a string, NEWLINE, INDENT and DEDENT end where the call began |
| `ScanLemmas.ScanFailsAtBadContinuation` | internal/python/patch/scanner.c:250-256 | outside a string, a backslash that does not continue the line fails the scan and keeps the stacks |

## Left out

- The native engine: parsing, node navigation, query compilation and execution are calls into transpiled C. Their results are parameters of the model, or fresh `Handle`s.
- `Parser.SetLanguage`, `OperationLimit`, `Reset`, `SetIncludedRanges`, `Debug` and `ParseInput`, and the Node accessors other than `Parent`: they forward to the engine and hold no logic of the wrapper's own.
- `Tree.Edit` and `Node.Edit`: only `EditInput.c`, the conversion they share, is modelled; the rest is the engine's.
- `NextMatch` and `NextCapture`: the engine call between allocating and freeing the blocks fills them; their contents reach the model as the `native` parameter.
- The temporary C blocks of `NewQuery` (the pattern copy and the two out-pointers) are not modelled as `Handle`s, since each is freed by one `defer`. So the model also does not show that on the error path bindings.go:604 closes the TLS context before those deferred frees (589, 591, 593) run with it on return.
- Finalizers and the garbage collector: `Close` is modelled as the finalizer calls it, twice at most. The mutex around `readFuncsMap` is left out because concurrency is not modelled.
- `Parser.Parse` with a nil input (bindings.go:75) reaches the engine unchanged; the model does not distinguish it.
- Objects used after `Close` are not refused: the Go code does not check, so neither does the model.
- `Bindings.ReadFuncsMap.Register`: Go `int` overflow of the counter is not modelled, because integers are unbounded here.
- `realloc` and `malloc` failure is not modelled in the scanner; memory is unbounded.
- `isSpace` stands for `iswspace`, which depends on the C locale: it is a parameter.
- `PythonScanner.Scanner.Serialize`: `TREE_SITTER_SERIALIZATION_BUFFER_SIZE` is the length of the buffer passed in.
- `Serialization.DeserializeSpec`: whether `char` is signed is implementation-defined in C, so it is the parameter `signedChar`.
- `ScanLemmas.ScanKeepsIncreasing`: proves the order only while every logical line left in the input is shorter than 8192 code points. A logical line ends at a newline that no backslash escapes. Longer lines could measure 65536 columns or more, and the indentation would then be truncated. `IndentTruncationBreaksIncreasing` shows the order failing there.
- `ScanLemmas.AfterContentIncreasing`: the same bound on logical lines as `ScanKeepsIncreasing`, for the same reason.
- `tree_sitter_python_external_scanner_destroy` and the other exported entry points (scanner.c:364-393) only forward or `free`; memory release is not modelled for the scanner.
- `internal/lang/lang.go`, `internal/lib/capi_linux_arm.go` and the example tests are not part of this model.
- The lexer is reduced to what the scanner uses: lookahead, `advance`, `mark_end` and `result_symbol`, with `advance` doing nothing at the end of the input.

## Findings

| source | as written | input that shows it | evidently intended | confidence | as-written member | corrected member |
|---|---|---|---|---|---|---|
| bindings.go:260-263 | `new_end_point` of the native edit is filled from `OldEndPoint` | inserting "ab\n" at the start: end moves from (0,0) to (1,0), the engine is told (0,0) | fill it from `NewEndPoint` | high; not executed | `Bindings.EditInput.ToC`, `Bindings.InsertedLineIsReportedAsUnmoved` | `Bindings.EditInput.ToCIntended`, with `Bindings.ToCIntendedInjective` |
| internal/python/patch/scanner.c:303 | `Delimiter delimiter;` is read before it is written, so leftover quote bits count | an identifier `x` where STRING_START is valid, with a single-quote bit left in the variable: an empty STRING_START is returned | clear the flags: `Delimiter delimiter = 0;` | high (reading an uninitialised variable is undefined behaviour in C); not executed | `ScanSpec.StringStartScanFrom`, `ScanLemmas.UninitialisedFlagsOpenString` | `ScanSpec.StringStartScan`, with `ScanLemmas.StringStartFacts` |
| bindings.go:780 | the second `defer` frees `cqmPtr` again instead of `captureIndexPtr` | any call of `NextCapture`: the match block is freed twice and the index block leaks | `defer libc.Xfree(qc.tls, captureIndexPtr)` | high; not executed | `Bindings.NextCaptureDeferredFrees`, `Bindings.NextCaptureFreesMatchTwice` | `Bindings.QueryCursor.NextCapture`, which ensures `FreesEachOnce`, with `Bindings.FreesEachOnceMeans` |
