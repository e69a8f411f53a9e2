/** The lifetime and node-identity discipline of the Go wrapper over the native
    tree-sitter engine (bindings.go).

    The engine itself is not modelled. Each piece of native state an object owns
    (a parser, tree, cursor or query object, a libc TLS context, a heap block) is a
    `Handle` whose `Release` demands that it is still live, so a method that could
    free something twice does not verify. Everything the engine computes (node
    values, match records, predicate arrays, memory contents, the outcome of
    compiling a query) reaches the model as a parameter. */
module Bindings {
  import opened Wrappers
  import Decimal

  type u16 = x: int | 0 <= x < 0x1_0000
  type u32 = x: int | 0 <= x < 0x1_0000_0000
  type byte = x: int | 0 <= x < 0x100

  /** A piece of native state that must be released exactly once. */
  class Handle {
    var live: bool

    constructor ()
      ensures live
    {
      live := true;
    }

    method Release()
      requires live
      modifies this
      ensures !live
    {
      live := false;
    }
  }

  /** The native node value `C.TSNode`: a struct compared field by field.
      `id == 0` is the engine's null node. */
  datatype TSNode = TSNode(context: seq<u32>, id: nat, tree: nat)

  /** A grammar descriptor; only its native pointer matters here. */
  datatype Language = Language(ptr: nat)

  // ---------------------------------------------------------------- Parser

  /** Owns a TLS context and a native parser. */
  class Parser {
    const tls: Handle
    const c: Handle
    var isClosed: bool

    ghost predicate Valid()
      reads this, tls, c
    {
      tls != c && (isClosed <==> !tls.live) && (isClosed <==> !c.live)
    }

    /** `NewParser`: a fresh TLS context and a fresh native parser. */
    constructor ()
      ensures Valid() && !isClosed
      ensures fresh(tls) && fresh(c)
    {
      tls := new Handle();
      c := new Handle();
      isClosed := false;
    }

    /** Frees the native parser and the TLS context the first time only; a second
        call, such as the finalizer after an explicit close, does nothing. */
    method Close()
      requires Valid()
      modifies this, tls, c
      ensures Valid() && isClosed
      ensures !old(isClosed) ==> !tls.live && !c.live
      ensures old(isClosed) ==> unchanged(this, tls, c)
    {
      if !isClosed {
        c.Release();
        tls.Release();
      }
      isClosed := true;
    }

    /** `newTree`: wraps a native tree in a fresh BaseTree sharing this parser's
        TLS context, with an empty node cache and a keep-alive reference to this
        parser. */
    method NewTree(c: Handle) returns (t: Tree)
      requires c.live && c != tls
      ensures fresh(t) && fresh(t.base)
      ensures t.p == this && t.base.c == c && t.base.tls == tls
      ensures !t.base.isClosed && t.cache == map[]
      ensures t.Valid() && t.base.Valid()
    {
      var base := new BaseTree(tls, c);
      t := new Tree(this, base);
    }

    /** `Parse`: the engine builds a new native tree from the content and the old
        tree, and the result is wrapped by `NewTree`. */
    method Parse(oldTree: Tree?, content: seq<byte>) returns (t: Tree)
      ensures fresh(t) && fresh(t.base) && fresh(t.base.c)
      ensures t.p == this && t.base.tls == tls
      ensures !t.base.isClosed && t.cache == map[]
      ensures t.Valid() && t.base.Valid()
    {
      var native := new Handle();
      t := NewTree(native);
    }
  }

  // ---------------------------------------------------------------- Trees and nodes

  /** The part of a tree that owns the native tree; it carries the finalizer, so it
      must not reach back to the nodes. */
  class BaseTree {
    const tls: Handle
    const c: Handle
    var isClosed: bool

    ghost predicate Valid()
      reads this, c
    {
      tls != c && (isClosed <==> !c.live)
    }

    constructor (tls: Handle, c: Handle)
      requires c.live && c != tls
      ensures this.tls == tls && this.c == c
      ensures Valid() && !isClosed
    {
      this.tls := tls;
      this.c := c;
      isClosed := false;
    }

    /** Deletes the native tree the first time only. The TLS context belongs to the
        parser and is left alone. */
    method Close()
      requires Valid()
      modifies this, c
      ensures Valid() && isClosed
      ensures !old(isClosed) ==> !c.live
      ensures old(isClosed) ==> unchanged(this, c)
      ensures unchanged(tls)
    {
      if !isClosed {
        c.Release();
      }
      isClosed := true;
    }
  }

  /** A syntax tree: its native part, the parser kept alive for it, and the cache
      giving each native node value one `Node` object. */
  class Tree {
    const base: BaseTree
    const p: Parser
    var cache: map<TSNode, Node>

    /** Every cached node is non-null, carries its own key and points back here;
        hence distinct keys hold distinct objects. */
    ghost predicate Valid()
      reads this
    {
      forall k :: k in cache ==> k.id != 0 && cache[k].c == k && cache[k].t == this
    }

    constructor (p: Parser, base: BaseTree)
      ensures this.p == p && this.base == base && cache == map[]
      ensures Valid()
    {
      this.p := p;
      this.base := base;
      cache := map[];
    }

    /** What `cachedNode` gives for a key after it has been looked up once. */
    ghost function Cached(ptr: TSNode): Node?
      reads this
      requires ptr.id == 0 || ptr in cache
    {
      if ptr.id == 0 then null else cache[ptr]
    }

    /** `cachedNode`: null for the null node (cache untouched); the cached object on
        a hit (cache untouched); otherwise a new Node for `ptr` and this tree,
        added as the one new entry. */
    method CachedNode(ptr: TSNode) returns (n: Node?)
      requires Valid()
      modifies this
      ensures Valid()
      ensures n == null <==> ptr.id == 0
      ensures ptr.id == 0 ==> cache == old(cache)
      ensures ptr in old(cache) ==> n == old(cache)[ptr] && cache == old(cache)
      ensures ptr.id != 0 && ptr !in old(cache) ==>
                fresh(n) && n.c == ptr && n.t == this && cache == old(cache)[ptr := n]
      ensures ptr.id != 0 ==> ptr in cache && cache[ptr] == n
    {
      if ptr.id == 0 {
        return null;
      }
      if ptr in cache {
        return cache[ptr];
      }
      n := new Node(ptr, this);
      cache := cache[ptr := n];
    }

    /** `Copy`: the engine duplicates the native tree and the copy is wrapped by the
        same parser, so it starts with its own empty cache. */
    method Copy() returns (copy: Tree)
      ensures fresh(copy) && fresh(copy.base) && fresh(copy.base.c)
      ensures copy.p == p && copy.base.tls == p.tls
      ensures !copy.base.isClosed && copy.cache == map[]
      ensures copy.Valid() && copy.base.Valid()
    {
      var native := new Handle();
      copy := p.NewTree(native);
    }

    /** `RootNode`: the engine's root value `native`, routed through the cache. */
    method RootNode(native: TSNode) returns (n: Node?)
      requires Valid()
      modifies this
      ensures Valid()
      ensures native.id != 0 ==> native in cache && n == cache[native]
      ensures n == null <==> native.id == 0
      ensures forall k :: k in old(cache) ==> k in cache && cache[k] == old(cache)[k]
    {
      n := CachedNode(native);
    }
  }

  /** A node: a native value and the tree it belongs to. It owns nothing. */
  class Node {
    const c: TSNode
    const t: Tree

    constructor (c: TSNode, t: Tree)
      ensures this.c == c && this.t == t
    {
      this.c := c;
      this.t := t;
    }

    /** `Parent`: the engine's parent value `native`, routed through this node's tree. */
    method Parent(native: TSNode) returns (n: Node?)
      requires t.Valid()
      modifies t
      ensures t.Valid()
      ensures native.id != 0 ==> native in t.cache && n == t.cache[native]
      ensures n == null <==> native.id == 0
      ensures forall k :: k in old(t.cache) ==> k in t.cache && t.cache[k] == old(t.cache)[k]
    {
      n := t.CachedNode(native);
    }
  }

  /** Node identity across accessors: a node reached as the root, as a parent and
      as a cursor's current node is one object whenever the engine reports the same
      native value. */
  method IdentityAcrossAccessors(t: Tree, child: Node, root: TSNode, cursor: TreeCursor)
    returns (a: Node?, b: Node?, c: Node?)
    requires t.Valid() && child.t == t && cursor.t == t && root.id != 0
    modifies t
    ensures a == b == c && a != null && a.c == root && a.t == t
  {
    a := t.RootNode(root);
    b := child.Parent(root);
    c := cursor.CurrentNode(root);
  }

  // ---------------------------------------------------------------- Edits

  datatype Point = Point(row: u32, column: u32)

  /** The edit description callers pass to `Tree.Edit` and `Node.Edit`. */
  datatype EditInput = EditInput(startIndex: u32, oldEndIndex: u32, newEndIndex: u32,
                                 startPoint: Point, oldEndPoint: Point, newEndPoint: Point)
  {
    /** `EditInput.c` as written: every field is copied from its namesake except the
        new end point, which is filled from the old end point. */
    function ToC(): (e: TSInputEdit)
      ensures e.newEndPoint == oldEndPoint
      ensures e.startByte == startIndex && e.oldEndByte == oldEndIndex && e.newEndByte == newEndIndex
      ensures e.startPoint == startPoint && e.oldEndPoint == oldEndPoint
    {
      TSInputEdit(startIndex, oldEndIndex, newEndIndex, startPoint, oldEndPoint, oldEndPoint)
    }

    /** The evidently intended conversion: the new end point comes from `newEndPoint`. */
    function ToCIntended(): (e: TSInputEdit)
      ensures e.FromC() == this
    {
      TSInputEdit(startIndex, oldEndIndex, newEndIndex, startPoint, oldEndPoint, newEndPoint)
    }
  }

  /** The native `TSInputEdit` record. */
  datatype TSInputEdit = TSInputEdit(startByte: u32, oldEndByte: u32, newEndByte: u32,
                                     startPoint: Point, oldEndPoint: Point, newEndPoint: Point)
  {
    /** Reads an edit description back from the native record. */
    function FromC(): EditInput {
      EditInput(startByte, oldEndByte, newEndByte, startPoint, oldEndPoint, newEndPoint)
    }
  }

  /** Reading a native record back and converting it the intended way gives the
      record again: with `ToCIntended`'s contract, the two are inverse bijections. */
  lemma FromCThenToCIntended(r: TSInputEdit)
    ensures r.FromC().ToCIntended() == r
  {
  }

  /** As written, the conversion loses the new end point: it round-trips exactly
      the edits whose new end point equals their old end point. */
  lemma ToCRoundTripsOnlyUnmovedEnds(e: EditInput)
    ensures e.ToC().FromC() == e <==> e.newEndPoint == e.oldEndPoint
  {
  }

  /** A concrete edit that the native side receives wrongly: typing "ab\n" at the
      start of a file moves the end from (0,0) to (1,0), yet the engine is told (0,0). */
  lemma InsertedLineIsReportedAsUnmoved()
    ensures var e := EditInput(0, 0, 3, Point(0, 0), Point(0, 0), Point(1, 0));
            e.ToC().newEndPoint != e.newEndPoint
  {
  }

  /** The intended conversion keeps every edit apart. */
  lemma ToCIntendedInjective(e1: EditInput, e2: EditInput)
    requires e1.ToCIntended() == e2.ToCIntended()
    ensures e1 == e2
  {
    assert e1 == e1.ToCIntended().FromC();
  }

  // ---------------------------------------------------------------- Tree cursor

  /** Owns a heap block holding the native cursor, and the cursor's own state. */
  class TreeCursor {
    const c: Handle
    const state: Handle
    var t: Tree
    var isClosed: bool

    ghost predicate Valid()
      reads this, c, state
    {
      c != state && (isClosed <==> !c.live) && (isClosed <==> !state.live)
    }

    /** `NewTreeCursor`: a cursor on `n`, reporting nodes through `n`'s tree. */
    constructor (n: Node)
      ensures Valid() && !isClosed && t == n.t
      ensures fresh(c) && fresh(state)
    {
      state := new Handle();
      c := new Handle();
      t := n.t;
      isClosed := false;
    }

    /** Deletes the native cursor and frees its block, the first time only. */
    method Close()
      requires Valid()
      modifies this, c, state
      ensures Valid() && isClosed
      ensures !old(isClosed) ==> !c.live && !state.live
      ensures old(isClosed) ==> unchanged(this, c, state)
    {
      if !isClosed {
        state.Release();
        c.Release();
      }
      isClosed := true;
    }

    /** `Reset`: from now on nodes are reported through `n`'s tree. */
    method Reset(n: Node)
      modifies this`t
      ensures t == n.t
    {
      t := n.t;
    }

    /** `CurrentNode`: the engine's current value, routed through the cursor's tree. */
    method CurrentNode(native: TSNode) returns (n: Node?)
      requires t.Valid()
      modifies t
      ensures t.Valid()
      ensures native.id != 0 ==> native in t.cache && n == t.cache[native]
      ensures n == null <==> native.id == 0
      ensures forall k :: k in old(t.cache) ==> k in t.cache && t.cache[k] == old(t.cache)[k]
    {
      n := t.CachedNode(native);
    }
  }

  // ---------------------------------------------------------------- Queries

  const QueryErrorNone := 0
  const QueryErrorSyntax := 1
  const QueryErrorNodeType := 2
  const QueryErrorField := 3
  const QueryErrorCapture := 4

  predicate IsKnownErrorType(t: int) {
    QueryErrorSyntax <= t <= QueryErrorCapture
  }

  /** The word `QueryError.Error` puts before " error". */
  function KindName(t: int): string {
    if t == QueryErrorSyntax then "syntax"
    else if t == QueryErrorNodeType then "node type"
    else if t == QueryErrorField then "field"
    else if t == QueryErrorCapture then "capture"
    else "unknown"
  }

  const OffsetMarker := " error (offset: "

  /** A failed query compilation: the byte offset and the engine's error kind. */
  datatype QueryError = QueryError(offset: u32, errorType: int)
  {
    /** `QueryError.Error`. */
    function Error(): (s: string)
      ensures s == "" <==> errorType == QueryErrorNone
    {
      if errorType == QueryErrorNone then ""
      else KindName(errorType) + OffsetMarker + Decimal.NatToString(offset) + ")"
    }
  }

  /** Reads a message `<kind> error (offset: N)` for one given kind. */
  function ParseMessageAs(s: string, kind: string): Option<nat> {
    var prefix := kind + OffsetMarker;
    if |s| > |prefix| && s[..|prefix|] == prefix && s[|s| - 1] == ')'
    then Decimal.ParseNat(s[|prefix|..|s| - 1])
    else None
  }

  /** Recovers the kind word and the offset from a message of `QueryError.Error`. */
  function ParseMessage(s: string): Option<(string, nat)> {
    var kinds := ["syntax", "node type", "field", "capture", "unknown"];
    FirstParse(s, kinds)
  }

  function FirstParse(s: string, kinds: seq<string>): Option<(string, nat)>
    decreases |kinds|
  {
    if kinds == [] then None
    else match ParseMessageAs(s, kinds[0])
      case Some(n) => Some((kinds[0], n))
      case None => FirstParse(s, kinds[1..])
  }

  /** A message that starts with another letter cannot be read as this kind. */
  lemma ParseMessageAsNeedsFirstLetter(s: string, kind: string)
    requires |kind| > 0 && |s| > 0 && s[0] != kind[0]
    ensures ParseMessageAs(s, kind) == None
  {
    var prefix := kind + OffsetMarker;
    if |s| > |prefix| {
      assert s[..|prefix|][0] != prefix[0];
    }
  }

  lemma ParseMessageAsOwnKind(qe: QueryError)
    requires qe.errorType != QueryErrorNone
    ensures ParseMessageAs(qe.Error(), KindName(qe.errorType)) == Some(qe.offset)
  {
    var s := qe.Error();
    var prefix := KindName(qe.errorType) + OffsetMarker;
    var digits := Decimal.NatToString(qe.offset);
    assert s == prefix + digits + ")";
    assert s[..|prefix|] == prefix;
    assert s[|prefix|..|s| - 1] == digits;
    Decimal.ParseNatOfNatToString(qe.offset);
  }

  /** `Error` loses nothing: the kind word and the offset are read back from every
      non-empty message, so known kinds are told apart exactly. */
  lemma ParseMessageOfError(qe: QueryError)
    requires qe.errorType != QueryErrorNone
    ensures ParseMessage(qe.Error()) == Some((KindName(qe.errorType), qe.offset))
  {
    var s := qe.Error();
    var k := KindName(qe.errorType);
    assert s[0] == k[0];
    ParseMessageAsOwnKind(qe);
    var kinds := ["syntax", "node type", "field", "capture", "unknown"];
    var i := if k == "syntax" then 0 else if k == "node type" then 1 else if k == "field" then 2
      else if k == "capture" then 3 else 4;
    assert kinds[i] == k;
    FirstParseFindsKind(s, kinds, i);
  }

  /** The first kind that matches is found, when every kind tried before it starts
      with another letter than the message. */
  lemma {:induction false} FirstParseFindsKind(s: string, kinds: seq<string>, i: nat)
    requires i < |kinds| && |s| > 0 && ParseMessageAs(s, kinds[i]).Some?
    requires forall j :: 0 <= j < i ==> |kinds[j]| > 0 && kinds[j][0] != s[0]
    ensures FirstParse(s, kinds) == Some((kinds[i], ParseMessageAs(s, kinds[i]).value))
    decreases i
  {
    if i > 0 {
      ParseMessageAsNeedsFirstLetter(s, kinds[0]);
      FirstParseFindsKind(s, kinds[1..], i - 1);
    }
  }

  /** The kind words of the four known kinds are distinct and none is "unknown". */
  lemma KindNamesDistinct(t1: int, t2: int)
    requires IsKnownErrorType(t1) && KindName(t1) == KindName(t2)
    ensures t1 == t2
  {
  }

  /** A compiled query: its own TLS context and the native query. */
  class Query {
    const tls: Handle
    const c: Handle
    var isClosed: bool

    ghost predicate Valid()
      reads this, tls, c
    {
      tls != c && (isClosed <==> !tls.live) && (isClosed <==> !c.live)
    }

    constructor (tls: Handle, c: Handle)
      requires tls != c && tls.live && c.live
      ensures this.tls == tls && this.c == c
      ensures Valid() && !isClosed
    {
      this.tls := tls;
      this.c := c;
      isClosed := false;
    }

    /** Deletes the native query and closes the TLS context, the first time only. */
    method Close()
      requires Valid()
      modifies this, tls, c
      ensures Valid() && isClosed
      ensures !old(isClosed) ==> !tls.live && !c.live
      ensures old(isClosed) ==> unchanged(this, tls, c)
    {
      if !isClosed {
        c.Release();
        tls.Release();
      }
      isClosed := true;
    }
  }

  /** What the engine's query compiler reports through its two out-pointers. */
  datatype CompileOutcome = CompileOutcome(errorOffset: u32, errorType: int)

  /** `cbytes`: copies a Go byte slice into a fresh C buffer, byte by byte. */
  method CBytes(b: seq<byte>) returns (cb: array<byte>)
    ensures fresh(cb) && cb[..] == b
  {
    cb := new byte[|b|];
    var i := 0;
    while i < |b|
      invariant 0 <= i <= |b|
      invariant cb[..i] == b[..i]
    {
      cb[i] := b[i];
      i := i + 1;
    }
  }

  /** `NewQuery`: compiles `pattern` for `lang`. The result is exactly one of a live
      query and the engine's error; on error the TLS context made for the query is
      closed again. */
  method NewQuery(pattern: seq<byte>, lang: Language, compile: (nat, seq<byte>) -> CompileOutcome)
    returns (q: Query?, err: Option<QueryError>, ghost tls: Handle)
    ensures fresh(tls)
    ensures err.Some? ==> !tls.live
    ensures q != null ==> q.tls == tls
    ensures (q == null) <==> err.Some?
    ensures err.Some? <==> compile(lang.ptr, pattern).errorType != QueryErrorNone
    ensures err.Some? ==>
              err.value == QueryError(compile(lang.ptr, pattern).errorOffset, compile(lang.ptr, pattern).errorType)
    ensures q != null ==> fresh(q) && fresh(q.tls) && fresh(q.c) && q.Valid() && !q.isClosed
  {
    var context := new Handle();
    tls := context;
    var input := CBytes(pattern);
    var outcome := compile(lang.ptr, input[..]);
    if outcome.errorType != QueryErrorNone {
      context.Release();
      return null, Some(QueryError(outcome.errorOffset, outcome.errorType)), tls;
    }
    var c := new Handle();
    q := new Query(context, c);
    err := None;
  }

  /** One step of a pattern's predicate program. */
  datatype QueryPredicateStep = QueryPredicateStep(stepType: int, valueId: u32)

  /** The native `TSQueryPredicateStep` record. */
  datatype CPredicateStep = CPredicateStep(stepType: int, valueId: u32)

  /** `PredicatesForPattern`: the engine hands back an array and its length `count`;
      the steps are copied in order, exactly `count` of them. */
  method PredicatesForPattern(native: seq<CPredicateStep>, count: u32) returns (steps: seq<QueryPredicateStep>)
    requires count <= |native|
    ensures |steps| == count
    ensures forall i :: 0 <= i < count ==>
              steps[i].stepType == native[i].stepType && steps[i].valueId == native[i].valueId
  {
    steps := [];
    var i := 0;
    while i < count
      invariant 0 <= i <= count && |steps| == i
      invariant forall j :: 0 <= j < i ==>
                  steps[j].stepType == native[j].stepType && steps[j].valueId == native[j].valueId
    {
      steps := steps + [QueryPredicateStep(native[i].stepType, native[i].valueId)];
      i := i + 1;
    }
  }

  /** `goStringN`: the empty string for a null pointer, otherwise exactly the `n`
      bytes of memory starting at address `s`. */
  method GoStringN(mem: seq<byte>, s: nat, n: nat) returns (r: seq<byte>)
    requires s != 0 ==> s + n <= |mem|
    ensures s == 0 ==> r == []
    ensures s != 0 ==> |r| == n && forall i :: 0 <= i < n ==> r[i] == mem[s + i]
  {
    if s == 0 {
      return [];
    }
    r := [];
    var p := s;
    var i := 0;
    while i < n
      invariant 0 <= i <= n && p == s + i && |r| == i
      invariant forall j :: 0 <= j < i ==> r[j] == mem[s + j]
    {
      r := r + [mem[p]];
      p := p + 1;
      i := i + 1;
    }
  }

  /** `CaptureNameForId` and `StringValueForId`: the engine's pointer and length,
      read with `goStringN`. */
  method NameForId(mem: seq<byte>, namePtr: nat, length: u32) returns (name: seq<byte>)
    requires namePtr != 0 ==> namePtr + length <= |mem|
    ensures namePtr == 0 ==> name == []
    ensures namePtr != 0 ==> name == mem[namePtr..namePtr + length]
  {
    name := GoStringN(mem, namePtr, length);
  }

  // ---------------------------------------------------------------- Query cursors

  /** The native `TSQueryCapture` and `TSQueryMatch` records. */
  datatype CQueryCapture = CQueryCapture(node: TSNode, index: u32)
  datatype CQueryMatch = CQueryMatch(id: u32, patternIndex: u16, captureCount: u16, captures: seq<CQueryCapture>)

  /** A captured node with its capture index, and a match with its captures. */
  datatype QueryCapture = QueryCapture(index: u32, node: Node?)
  datatype QueryMatch = QueryMatch(id: u32, patternIndex: u16, captures: seq<QueryCapture>)

  /** Owns a TLS context and a native query cursor; remembers the tree of the last `Exec`. */
  class QueryCursor {
    const tls: Handle
    const c: Handle
    var t: Tree?
    var isClosed: bool

    ghost predicate Valid()
      reads this, tls, c
    {
      tls != c && (isClosed <==> !tls.live) && (isClosed <==> !c.live)
    }

    /** `NewQueryCursor`: no tree yet. */
    constructor ()
      ensures Valid() && !isClosed && t == null
      ensures fresh(tls) && fresh(c)
    {
      tls := new Handle();
      c := new Handle();
      t := null;
      isClosed := false;
    }

    /** Deletes the native cursor and closes the TLS context, the first time only. */
    method Close()
      requires Valid()
      modifies this, tls, c
      ensures Valid() && isClosed
      ensures !old(isClosed) ==> !tls.live && !c.live
      ensures old(isClosed) ==> unchanged(this, tls, c)
    {
      if !isClosed {
        c.Release();
        tls.Release();
      }
      isClosed := true;
    }

    /** `Exec`: captures are from now on resolved through `n`'s tree. */
    method Exec(q: Query, n: Node)
      modifies this`t
      ensures t == n.t
    {
      t := n.t;
    }

    /** `queryMatchFromC`: exactly `captureCount` captures, in native order, each
        node obtained from the tree's cache, which only gains entries. */
    method QueryMatchFromC(cqm: CQueryMatch) returns (qm: QueryMatch)
      requires t != null && t.Valid()
      requires cqm.captureCount <= |cqm.captures|
      modifies t
      ensures t.Valid()
      ensures Converted(t, cqm, qm)
      ensures forall k :: k in old(t.cache) ==> k in t.cache && t.cache[k] == old(t.cache)[k]
      ensures forall k :: k in t.cache && k !in old(t.cache) ==>
                exists i :: 0 <= i < cqm.captureCount && cqm.captures[i].node == k
    {
      var count := cqm.captureCount;
      var captures: seq<QueryCapture> := [];
      var i := 0;
      while i < count
        invariant 0 <= i <= count && |captures| == i
        invariant t.Valid()
        invariant forall k :: k in old(t.cache) ==> k in t.cache && t.cache[k] == old(t.cache)[k]
        invariant forall k :: k in t.cache && k !in old(t.cache) ==>
                    exists j :: 0 <= j < i && cqm.captures[j].node == k
        invariant forall j :: 0 <= j < i ==>
                    var key := cqm.captures[j].node;
                    captures[j].index == cqm.captures[j].index &&
                    (key.id == 0 || key in t.cache) && captures[j].node == t.Cached(key)
      {
        var c := cqm.captures[i];
        var node := t.CachedNode(c.node);
        captures := captures + [QueryCapture(c.index, node)];
        i := i + 1;
      }
      qm := QueryMatch(cqm.id, cqm.patternIndex, captures);
    }

    /** `NextMatch`: `native` is what the engine's next-match call produced, if
        anything. On a match the result carries its id, its pattern index and every
        capture, as `QueryMatchFromC` converts them. The temporary block for the
        native match, `matchBlock`, is allocated here and freed exactly once. */
    method NextMatch(native: Option<CQueryMatch>)
      returns (qm: Option<QueryMatch>, ok: bool, ghost matchBlock: Handle, ghost freed: seq<Block>)
      requires native.Some? ==> t != null && t.Valid()
      requires native.Some? ==> native.value.captureCount <= |native.value.captures|
      modifies t
      ensures ok <==> native.Some?
      ensures qm.Some? <==> ok
      ensures ok ==> t.Valid() && Converted(t, native.value, qm.value)
      ensures t != null ==> forall k :: k in old(t.cache) ==> k in t.cache && t.cache[k] == old(t.cache)[k]
      ensures !ok ==> t == null || t.cache == old(t.cache)
      ensures fresh(matchBlock) && !matchBlock.live
      ensures FreesEachOnce([MatchBlock], freed)
    {
      var mb := new Handle();
      matchBlock := mb;
      freed := [];
      if native.None? {
        freed := Free(mb, MatchBlock, freed);
        return None, false, matchBlock, freed;
      }
      var m := QueryMatchFromC(native.value);
      freed := Free(mb, MatchBlock, freed);
      return Some(m), true, matchBlock, freed;
    }

    /** `NextCapture`: as `NextMatch`, with the index of the capture being delivered
        (0 when there is no match). Both temporary blocks, the native match and the
        capture index, are freed exactly once, as intended; `NextCaptureDeferredFrees`
        is what the source frees. */
    method NextCapture(native: Option<(CQueryMatch, u32)>)
      returns (qm: Option<QueryMatch>, index: u32, ok: bool,
               ghost matchBlock: Handle, ghost indexBlock: Handle, ghost freed: seq<Block>)
      requires native.Some? ==> t != null && t.Valid()
      requires native.Some? ==> native.value.0.captureCount <= |native.value.0.captures|
      modifies t
      ensures ok <==> native.Some?
      ensures qm.Some? <==> ok
      ensures !ok ==> index == 0
      ensures ok ==> index == native.value.1
      ensures ok ==> t.Valid() && Converted(t, native.value.0, qm.value)
      ensures t != null ==> forall k :: k in old(t.cache) ==> k in t.cache && t.cache[k] == old(t.cache)[k]
      ensures !ok ==> t == null || t.cache == old(t.cache)
      ensures fresh(matchBlock) && fresh(indexBlock) && matchBlock != indexBlock
      ensures !matchBlock.live && !indexBlock.live
      ensures FreesEachOnce([MatchBlock, CaptureIndexBlock], freed)
      ensures freed == RunDefers([MatchBlock, CaptureIndexBlock])
    {
      var mb := new Handle();
      matchBlock := mb;
      var ib := new Handle();
      indexBlock := ib;
      freed := [];
      if native.None? {
        freed := Free(ib, CaptureIndexBlock, freed);
        freed := Free(mb, MatchBlock, freed);
        return None, 0, false, matchBlock, indexBlock, freed;
      }
      var m := QueryMatchFromC(native.value.0);
      freed := Free(ib, CaptureIndexBlock, freed);
      freed := Free(mb, MatchBlock, freed);
      return Some(m), native.value.1, true, matchBlock, indexBlock, freed;
    }
  }

  /** `qm` is the Go form of the native match `cqm`: the same id and pattern index,
      and exactly `captureCount` captures in native order, each with its capture
      index and the node the tree's cache holds for its native node. */
  ghost predicate Converted(t: Tree, cqm: CQueryMatch, qm: QueryMatch)
    reads t
  {
    qm.id == cqm.id && qm.patternIndex == cqm.patternIndex &&
    cqm.captureCount <= |cqm.captures| &&
    |qm.captures| == cqm.captureCount &&
    forall i :: 0 <= i < |qm.captures| ==>
      var key := cqm.captures[i].node;
      qm.captures[i].index == cqm.captures[i].index &&
      (key.id == 0 || key in t.cache) && qm.captures[i].node == t.Cached(key)
  }

  /** `libc.Xfree` of a block: it must still be live, and the free is recorded. */
  method Free(h: Handle, b: Block, ghost freed: seq<Block>) returns (ghost freed': seq<Block>)
    requires h.live
    modifies h
    ensures !h.live && freed' == freed + [b]
  {
    h.Release();
    freed' := freed + [b];
  }

  /** The two temporary C blocks of `NextCapture`. */
  datatype Block = MatchBlock | CaptureIndexBlock

  /** Go runs the calls deferred in a function last first, on return. */
  function RunDefers(deferred: seq<Block>): (run: seq<Block>)
    ensures |run| == |deferred|
    ensures forall i :: 0 <= i < |run| ==> run[i] == deferred[|deferred| - 1 - i]
  {
    if deferred == [] then [] else RunDefers(deferred[1..]) + [deferred[0]]
  }

  /** The blocks `NextCapture` frees as written: the defers at bindings.go:778 and
      780, in the order they are declared, both name `cqmPtr`, the match block. */
  function NextCaptureDeferredFrees(): (freed: seq<Block>)
    ensures |freed| == 2 && CaptureIndexBlock !in freed
  {
    RunDefers([MatchBlock, MatchBlock])
  }

  /** Every allocated block is freed exactly once. */
  predicate FreesEachOnce(owned: seq<Block>, freed: seq<Block>) {
    multiset(freed) == multiset(owned)
  }

  /** For blocks allocated once each, "freed exactly once" means no block is freed
      twice, none is leaked and nothing else is freed. */
  lemma FreesEachOnceMeans(owned: seq<Block>, freed: seq<Block>)
    requires forall i, j :: 0 <= i < j < |owned| ==> owned[i] != owned[j]
    ensures FreesEachOnce(owned, freed) <==>
              (forall b :: b in owned ==> multiset(freed)[b] == 1) && (forall b :: b in freed ==> b in owned)
  {
    DistinctOnce(owned);
    if (forall b :: b in owned ==> multiset(freed)[b] == 1) && (forall b :: b in freed ==> b in owned) {
      forall b ensures multiset(freed)[b] == multiset(owned)[b] {
        if b !in owned {
          assert b !in multiset(freed);
        }
      }
      assert multiset(freed) == multiset(owned);
    }
  }

  /** Each element of a sequence without repetitions occurs once in its multiset. */
  lemma {:induction false} DistinctOnce(s: seq<Block>)
    requires forall i, j :: 0 <= i < j < |s| ==> s[i] != s[j]
    ensures forall b :: b in s ==> multiset(s)[b] == 1
    ensures forall b :: b !in s ==> multiset(s)[b] == 0
  {
    if s != [] {
      var t := s[1..];
      assert s == [s[0]] + t;
      DistinctOnce(t);
      assert s[0] !in t by {
        forall j | 0 <= j < |t| ensures t[j] != s[0] {
          assert t[j] == s[j + 1];
        }
      }
    }
  }

  /** As written, `NextCapture` frees the match block twice and leaks the index block. */
  lemma NextCaptureFreesMatchTwice()
    ensures multiset(NextCaptureDeferredFrees())[MatchBlock] == 2
    ensures CaptureIndexBlock !in NextCaptureDeferredFrees()
    ensures !FreesEachOnce([MatchBlock, CaptureIndexBlock], NextCaptureDeferredFrees())
  {
    assert multiset(NextCaptureDeferredFrees())[CaptureIndexBlock] == 0;
  }

  // ---------------------------------------------------------------- Read callbacks

  /** `readFuncsMap`: callbacks by token. `issued` is every token ever handed out. */
  class ReadFuncsMap<F> {
    var funcs: map<int, F>
    var count: int
    ghost var issued: set<int>

    ghost predicate Valid()
      reads this
    {
      count >= 0 && funcs.Keys <= issued && (forall id :: id in issued ==> 1 <= id <= count)
    }

    constructor ()
      ensures Valid() && funcs == map[] && count == 0 && issued == {}
    {
      funcs := map[];
      count := 0;
      issued := {};
    }

    /** `get`: the callback registered under `id`, or nil. */
    function Get(id: int): (r: Option<F>)
      reads this
      ensures r.Some? <==> id in funcs
      ensures Valid() && r.Some? ==> id in issued && 1 <= id <= count
    {
      if id in funcs then Some(funcs[id]) else None
    }

    /** `register`: the next token, larger than every token handed out before, now
        maps to `f`; no other token changes. */
    method Register(f: F) returns (id: int)
      requires Valid()
      modifies this
      ensures Valid()
      ensures id == old(count) + 1 && count == id
      ensures forall earlier :: earlier in old(issued) ==> earlier < id
      ensures issued == old(issued) + {id}
      ensures Get(id) == Some(f)
      ensures forall other :: other != id ==> Get(other) == old(Get(other))
    {
      count := count + 1;
      funcs := funcs[count := f];
      issued := issued + {count};
      id := count;
    }

    /** `unregister`: `id` maps to nil afterwards; no other token changes. */
    method Unregister(id: int)
      requires Valid()
      modifies this
      ensures Valid() && count == old(count) && issued == old(issued)
      ensures Get(id) == None
      ensures forall other :: other != id ==> Get(other) == old(Get(other))
    {
      funcs := funcs - {id};
    }
  }
}
