/** The string-delimiter flags of the Python external scanner
    (internal/python/patch/scanner.c:18-67): one byte per open string literal,
    holding its quote character and its prefix letters as bits. The byte is an
    integer below 256; bit k of `flags` is `(flags / 2^k) % 2`, and setting a bit
    that is clear adds `2^k`. */
module Delimiters {

  type Byte = x: int | 0 <= x < 0x100

  type Delimiter = Byte

  const SingleQuote := 1
  const DoubleQuote := 2
  const BackQuote := 4
  const Raw := 8
  const Format := 16
  const Triple := 32
  const Bytes := 64

  predicate HasSingleQuote(flags: Delimiter) { flags % 2 == 1 }
  predicate HasDoubleQuote(flags: Delimiter) { (flags / 2) % 2 == 1 }
  predicate HasBackQuote(flags: Delimiter) { (flags / 4) % 2 == 1 }

  // `delimiter_is_raw`, `delimiter_is_format`, `delimiter_is_triple`, `delimiter_is_bytes`.
  predicate IsRaw(flags: Delimiter) { (flags / 8) % 2 == 1 }
  predicate IsFormat(flags: Delimiter) { (flags / 16) % 2 == 1 }
  predicate IsTriple(flags: Delimiter) { (flags / 32) % 2 == 1 }
  predicate IsBytes(flags: Delimiter) { (flags / 64) % 2 == 1 }

  /** No quote bit is set: `(flags & 7) == 0`. */
  predicate NoQuote(flags: Delimiter) {
    flags % 8 == 0
  }

  // `flags |= Bit` for each bit: that bit is set, every bit below and above it is kept.

  function WithSingleQuote(flags: Delimiter): (r: Delimiter)
    ensures HasSingleQuote(r) && r / 2 == flags / 2
    ensures IsTriple(r) <==> IsTriple(flags)
  {
    if HasSingleQuote(flags) then flags else flags + SingleQuote
  }

  function WithDoubleQuote(flags: Delimiter): (r: Delimiter)
    ensures HasDoubleQuote(r) && r % 2 == flags % 2 && r / 4 == flags / 4
    ensures IsTriple(r) <==> IsTriple(flags)
  {
    if HasDoubleQuote(flags) then flags else flags + DoubleQuote
  }

  function WithBackQuote(flags: Delimiter): (r: Delimiter)
    ensures HasBackQuote(r) && r % 4 == flags % 4 && r / 8 == flags / 8
    ensures IsTriple(r) <==> IsTriple(flags)
  {
    if HasBackQuote(flags) then flags else flags + BackQuote
  }

  function WithRaw(flags: Delimiter): (r: Delimiter)
    ensures IsRaw(r) && r % 8 == flags % 8 && r / 16 == flags / 16
    ensures r % 8 == flags % 8 && (IsTriple(r) <==> IsTriple(flags))
  {
    if IsRaw(flags) then flags else flags + Raw
  }

  function WithFormat(flags: Delimiter): (r: Delimiter)
    ensures IsFormat(r) && r % 16 == flags % 16 && r / 32 == flags / 32
    ensures r % 8 == flags % 8 && (IsTriple(r) <==> IsTriple(flags))
  {
    if IsFormat(flags) then flags else flags + Format
  }

  function WithTriple(flags: Delimiter): (r: Delimiter)
    ensures IsTriple(r) && r % 32 == flags % 32 && r / 64 == flags / 64
    ensures r % 8 == flags % 8
  {
    if IsTriple(flags) then flags else flags + Triple
  }

  function WithBytes(flags: Delimiter): (r: Delimiter)
    ensures IsBytes(r) && r % 64 == flags % 64 && r / 128 == flags / 128
    ensures r % 8 == flags % 8 && (IsTriple(r) <==> IsTriple(flags))
  {
    if IsBytes(flags) then flags else flags + Bytes
  }

  // The four flag tests read four different bits: each prefix setter makes its own
  // test true and leaves the other three as they were.

  lemma WithRawTests(flags: Delimiter)
    ensures IsRaw(WithRaw(flags)) && (IsFormat(WithRaw(flags)) <==> IsFormat(flags))
            && (IsTriple(WithRaw(flags)) <==> IsTriple(flags)) && (IsBytes(WithRaw(flags)) <==> IsBytes(flags))
  {
  }

  lemma WithFormatTests(flags: Delimiter)
    ensures IsFormat(WithFormat(flags)) && (IsRaw(WithFormat(flags)) <==> IsRaw(flags))
            && (IsTriple(WithFormat(flags)) <==> IsTriple(flags)) && (IsBytes(WithFormat(flags)) <==> IsBytes(flags))
  {
    if !IsFormat(flags) {
      assert (flags + 16) / 8 == flags / 8 + 2;
      assert (flags + 16) / 32 == flags / 32;
      assert (flags + 16) / 64 == flags / 64;
    }
  }

  lemma WithTripleTests(flags: Delimiter)
    ensures IsTriple(WithTriple(flags)) && (IsRaw(WithTriple(flags)) <==> IsRaw(flags))
            && (IsFormat(WithTriple(flags)) <==> IsFormat(flags)) && (IsBytes(WithTriple(flags)) <==> IsBytes(flags))
  {
    if !IsTriple(flags) {
      assert (flags + 32) / 8 == flags / 8 + 4;
      assert (flags + 32) / 16 == flags / 16 + 2;
      assert (flags + 32) / 64 == flags / 64;
    }
  }

  lemma WithBytesTests(flags: Delimiter)
    ensures IsBytes(WithBytes(flags)) && (IsRaw(WithBytes(flags)) <==> IsRaw(flags))
            && (IsFormat(WithBytes(flags)) <==> IsFormat(flags)) && (IsTriple(WithBytes(flags)) <==> IsTriple(flags))
  {
    if !IsBytes(flags) {
      assert (flags + 64) / 8 == flags / 8 + 8;
      assert (flags + 64) / 16 == flags / 16 + 4;
      assert (flags + 64) / 32 == flags / 32 + 2;
    }
  }

  const SingleQuoteChar := '\'' as int
  const DoubleQuoteChar := '"' as int
  const BackQuoteChar := '`' as int

  predicate IsQuoteChar(c: int) {
    c == SingleQuoteChar || c == DoubleQuoteChar || c == BackQuoteChar
  }

  /** `delimiter_end_character`: the closing quote, the single quote winning over the
      double quote and the double quote over the back quote; 0 without a quote bit. */
  function EndCharacter(flags: Delimiter): (c: int)
    ensures c == 0 || IsQuoteChar(c)
  {
    if HasSingleQuote(flags) then SingleQuoteChar
    else if HasDoubleQuote(flags) then DoubleQuoteChar
    else if HasBackQuote(flags) then BackQuoteChar
    else 0
  }

  /** `delimiter_set_end_character`: sets the bit of one of the three quotes. Its
      `default: assert(false)` branch is why callers must pass a quote. */
  function SetEndCharacter(flags: Delimiter, c: int): (r: Delimiter)
    requires IsQuoteChar(c)
    ensures c == SingleQuoteChar ==> HasSingleQuote(r)
    ensures c == DoubleQuoteChar ==> HasDoubleQuote(r)
    ensures c == BackQuoteChar ==> HasBackQuote(r)
    ensures r % 8 >= flags % 8 && r / 8 == flags / 8
  {
    if c == SingleQuoteChar then WithSingleQuote(flags)
    else if c == DoubleQuoteChar then WithDoubleQuote(flags)
    else WithBackQuote(flags)
  }

  /** Setting a quote leaves the raw, format, triple and bytes tests as they were. */
  lemma SetEndCharacterKeepsTests(flags: Delimiter, c: int)
    requires IsQuoteChar(c)
    ensures var r := SetEndCharacter(flags, c);
      && (IsRaw(r) <==> IsRaw(flags)) && (IsFormat(r) <==> IsFormat(flags))
      && (IsTriple(r) <==> IsTriple(flags)) && (IsBytes(r) <==> IsBytes(flags))
  {
    var r := SetEndCharacter(flags, c);
    assert r / 16 == (r / 8) / 2 && flags / 16 == (flags / 8) / 2;
    assert r / 32 == (r / 8) / 4 && flags / 32 == (flags / 8) / 4;
    assert r / 64 == (r / 8) / 8 && flags / 64 == (flags / 8) / 8;
  }

  /** There is an end character exactly when some quote bit is set. */
  lemma EndCharacterZeroIff(flags: Delimiter)
    ensures EndCharacter(flags) == 0 <==> NoQuote(flags)
  {
  }

  /** Setting a quote on flags that have none makes it the end character, and keeps
      every bit above the quote bits. */
  lemma EndCharacterOfSet(flags: Delimiter, c: int)
    requires IsQuoteChar(c) && NoQuote(flags)
    ensures EndCharacter(SetEndCharacter(flags, c)) == c
    ensures SetEndCharacter(flags, c) / 8 == flags / 8
  {
  }

  /** The end character depends on the three quote bits only. */
  lemma EndCharacterOfLowBits(a: Delimiter, b: Delimiter)
    requires a % 8 == b % 8
    ensures EndCharacter(a) == EndCharacter(b)
  {
    QuoteBitsOfLowBits(a);
    QuoteBitsOfLowBits(b);
  }

  lemma QuoteBitsOfLowBits(a: Delimiter)
    ensures HasSingleQuote(a) <==> (a % 8) % 2 == 1
    ensures HasDoubleQuote(a) <==> ((a % 8) / 2) % 2 == 1
    ensures HasBackQuote(a) <==> (a % 8) / 4 == 1
  {
    var q := a / 8;
    var r := a % 8;
    assert a == 8 * q + r;
    assert a / 2 == 4 * q + r / 2;
    assert a / 4 == 2 * q + r / 4;
  }
}
