/** The byte format in which the Python external scanner saves its two stacks
    between parses (`scanner_serialize` and `scanner_deserialize`,
    internal/python/patch/scanner.c:97-136), written as functions over the stacks
    and the buffer; `PythonScanner.Scanner` is proved to compute them. */
module Serialization {
  import opened Delimiters
  import opened ScanSpec

  /** The largest count one (unsigned) byte can hold. */
  const MaxDelimiterCount := 255

  function Min(a: int, b: int): int {
    if a < b then a else b
  }

  /** The number of delimiters that are written: the stack height, clamped to 255. */
  function StoredDelimiterCount(st: Stacks): (k: nat)
    ensures k <= |st.delimiters| && k <= MaxDelimiterCount
    ensures k == |st.delimiters| || k == MaxDelimiterCount
  {
    Min(|st.delimiters|, MaxDelimiterCount)
  }

  /** How many indent entries above the bottom one fit into a buffer of `size` bytes. */
  function StoredIndentCount(st: Stacks, size: nat): (k: nat)
    requires |st.indents| >= 1
    ensures k <= |st.indents| - 1
    ensures k == 0 || 1 + StoredDelimiterCount(st) + k <= size
    ensures k < |st.indents| - 1 ==> size <= 1 + StoredDelimiterCount(st) + k
  {
    var room := size - 1 - StoredDelimiterCount(st);
    if room <= 0 then 0 else Min(|st.indents| - 1, room)
  }

  /** The byte written for one indent entry: its conversion from `uint16_t` to `char`. */
  function LowByte(x: u16): Byte {
    x % 0x100
  }

  /** The bytes written for the indent entries `indents[lo..hi]`, in order. */
  function LowBytes(indents: seq<u16>, lo: nat, hi: nat): (b: seq<Byte>)
    requires lo <= hi <= |indents|
    ensures |b| == hi - lo
    decreases hi - lo
  {
    if hi == lo then [] else LowBytes(indents, lo, hi - 1) + [LowByte(indents[hi - 1])]
  }

  /** The bytes `scanner_serialize` writes: the clamped delimiter count, that many
      delimiters from the bottom of the stack, then the low byte of every indent
      entry above the bottom one for as long as the buffer has room. */
  function SerializeSpec(st: Stacks, size: nat): (b: seq<Byte>)
    requires |st.indents| >= 1
    ensures |b| == 1 + StoredDelimiterCount(st) + StoredIndentCount(st, size)
    ensures b[0] == StoredDelimiterCount(st)
  {
    var k := StoredDelimiterCount(st);
    [k] + st.delimiters[..k] + LowBytes(st.indents, 1, 1 + StoredIndentCount(st, size))
  }

  /** The conversion of a `char` buffer byte to `uint16_t` when `scanner_push_indent_length`
      receives it: a signed `char` at or above 128 is negative and wraps modulo 65536. */
  function CharToU16(b: Byte, signedChar: bool): (x: u16)
    ensures x % 0x100 == b
    ensures !signedChar || b < 128 ==> x == b
    ensures signedChar && b >= 128 ==> x >= 0xFF80
  {
    if signedChar && b >= 128 then b + 0x1_0000 - 0x100 else b
  }

  /** The indent entries pushed for the bytes `buffer[lo..hi]`, in order. */
  function ReadIndents(buffer: seq<Byte>, lo: nat, hi: nat, signedChar: bool): (r: seq<u16>)
    requires hi <= |buffer|
    ensures |r| == if lo < hi then hi - lo else 0
    decreases hi
  {
    if hi <= lo then [] else ReadIndents(buffer, lo, hi - 1, signedChar) + [CharToU16(buffer[hi - 1], signedChar)]
  }

  /** The stacks `scanner_deserialize` rebuilds from the first `length` bytes of
      `buffer`: always a 0 at the bottom of the indent stack; for a non-empty buffer,
      the delimiters counted by its first byte and one indent entry per byte left. */
  function DeserializeSpec(buffer: seq<Byte>, length: nat, signedChar: bool): (st: Stacks)
    requires length <= |buffer|
    requires length > 0 ==> 1 + buffer[0] <= |buffer|
    ensures |st.indents| >= 1 && st.indents[0] == 0
    ensures length == 0 ==> st == Stacks([0], [])
    ensures length > 0 ==> |st.delimiters| == buffer[0]
  {
    if length == 0 then Stacks([0], [])
    else
      var count: int := buffer[0];
      Stacks([0] + ReadIndents(buffer, 1 + count, length, signedChar), buffer[1..1 + count])
  }

  /** The condition under which a saved state reads back as itself. */
  predicate Restorable(st: Stacks, size: nat) {
    && |st.delimiters| <= MaxDelimiterCount
    && |st.indents| >= 1 && st.indents[0] == 0
    && (forall i :: 1 <= i < |st.indents| ==> st.indents[i] < 128)
    && |st.delimiters| + |st.indents| <= size
  }

  /** The serialised form is never longer than the buffer that holds it. */
  lemma SerializeFits(st: Stacks, size: nat)
    requires |st.indents| >= 1 && 1 + StoredDelimiterCount(st) <= size
    ensures |SerializeSpec(st, size)| <= size
    ensures |SerializeSpec(st, size)| == 1 + StoredDelimiterCount(st) + StoredIndentCount(st, size)
  {
  }

  lemma SmallIndentSurvives(x: u16, signedChar: bool)
    requires x < 128
    ensures CharToU16(LowByte(x), signedChar) == x
  {
  }

  /** Reading back the bytes written for `indents[1..1 + m]`, wherever they sit in
      the buffer, gives those entries when each is below 128. */
  lemma {:induction false} ReadIndentsOfLowBytes(p: seq<Byte>, indents: seq<u16>, m: nat, signedChar: bool)
    requires 1 + m <= |indents|
    requires forall i :: 1 <= i < |indents| ==> indents[i] < 128
    ensures ReadIndents(p + LowBytes(indents, 1, 1 + m), |p|, |p| + m, signedChar) == indents[1..1 + m]
    decreases m
  {
    var b := p + LowBytes(indents, 1, 1 + m);
    if m > 0 {
      var b' := p + LowBytes(indents, 1, m);
      ReadIndentsOfLowBytes(p, indents, m - 1, signedChar);
      assert b == b' + [LowByte(indents[m])];
      ReadIndentsPrefix(b', b, |p|, |p| + m - 1, signedChar);
      SmallIndentSurvives(indents[m], signedChar);
      assert indents[1..1 + m] == indents[1..m] + [indents[m]];
    }
  }

  /** Only the bytes below `hi` matter. */
  lemma {:induction false} ReadIndentsPrefix(b: seq<Byte>, c: seq<Byte>, lo: nat, hi: nat, signedChar: bool)
    requires hi <= |b| <= |c| && b == c[..|b|]
    ensures ReadIndents(b, lo, hi, signedChar) == ReadIndents(c, lo, hi, signedChar)
    decreases hi
  {
    if lo < hi {
      ReadIndentsPrefix(b, c, lo, hi - 1, signedChar);
    }
  }

  /** Deserialising a serialised state restores both stacks, when the delimiter
      count fits in a byte, every indent entry fits in a `char` without a sign change,
      everything fits in the buffer and the bottom indent entry is 0. */
  lemma RoundTrip(st: Stacks, size: nat, signedChar: bool)
    requires Restorable(st, size)
    ensures var b := SerializeSpec(st, size);
      DeserializeSpec(b, |b|, signedChar) == st
  {
    var k := |st.delimiters|;
    var m := |st.indents| - 1;
    var p := [k] + st.delimiters;
    var b := SerializeSpec(st, size);
    SerializeOfRestorable(st, size);
    assert b[0] == k;
    assert b[1..1 + k] == st.delimiters;
    ReadIndentsOfLowBytes(p, st.indents, m, signedChar);
    var r := DeserializeSpec(b, |b|, signedChar);
    assert r.delimiters == st.delimiters;
    assert [0] + st.indents[1..1 + m] == st.indents;
    assert r.indents == st.indents;
  }

  /** A restorable state is written in full. */
  lemma SerializeOfRestorable(st: Stacks, size: nat)
    requires Restorable(st, size)
    ensures SerializeSpec(st, size)
      == [|st.delimiters|] + st.delimiters + LowBytes(st.indents, 1, |st.indents|)
  {
    assert StoredDelimiterCount(st) == |st.delimiters|;
    assert StoredIndentCount(st, size) == |st.indents| - 1;
    assert st.delimiters[..|st.delimiters|] == st.delimiters;
  }

  /** With more than 255 open strings only the 255 outermost delimiters survive. */
  lemma RoundTripClampsDelimiters(st: Stacks, size: nat, signedChar: bool)
    requires |st.indents| >= 1 && |st.delimiters| > MaxDelimiterCount
    requires 1 + MaxDelimiterCount <= size
    ensures var b := SerializeSpec(st, size);
      DeserializeSpec(b, |b|, signedChar).delimiters == st.delimiters[..MaxDelimiterCount]
  {
    var b := SerializeSpec(st, size);
    assert b[0] == MaxDelimiterCount;
    assert b[1..1 + MaxDelimiterCount] == st.delimiters[..MaxDelimiterCount];
  }

  /** An indent entry of 128 or more does not survive a round trip through a signed
      `char`: a 200-column block reads back as 65480. */
  lemma WideIndentDoesNotRoundTrip()
    ensures var st := Stacks([0, 200], []);
      var b := SerializeSpec(st, 1024);
      DeserializeSpec(b, |b|, true).indents == [0, 65480]
  {
    var st := Stacks([0, 200], []);
    var b := SerializeSpec(st, 1024);
    assert LowBytes(st.indents, 1, 2) == [200];
    assert b == [0, 200];
  }
}
