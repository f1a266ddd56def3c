/** Decoding AMQP values from a chain of buffers: the cursor-based decoder, shown to agree with the
    decoder of flat octet sequences; and composing then decoding through a chain. */
module Decode {
  import opened Basics
  import opened Amqp
  import opened Buffers
  import opened BufferField
  import Compose
  import opened Options

  const NOTHING := Field(0, 0, 0)

  /** A decoded tree, with its extents as offsets in the stream. */
  function FlatNode(bufs: Chain, n: Node<Field>): Node<Extent> {
    Node(n.tag, n.size, n.count, ExtentOf(bufs, n.value), ExtentOf(bufs, n.full), FlatNodes(bufs, n.children), n.error)
  }

  function FlatNodes(bufs: Chain, ns: seq<Node<Field>>): seq<Node<Extent>> {
    if ns == [] then [] else FlatNodes(bufs, ns[..|ns| - 1]) + [FlatNode(bufs, ns[|ns| - 1])]
  }

  /** A header read through a cursor: `rest` is the cursor afterwards. */
  datatype ChainHeader = ChainHeader(tag: Octet, size: nat, count: nat, value: Field, rest: Field, error: Error)

  /** The chain header says what the flat one says. */
  ghost predicate Agrees(bufs: Chain, c: ChainHeader, h: Header, end: nat) {
    && c.tag == h.tag && c.size == h.size && c.count == h.count && c.error == h.error
    && ExtentOf(bufs, c.value) == h.value
    && Begins(bufs, c.rest, h.next) && h.next + c.rest.remaining == end
    && (h.error == NoError ==> Begins(bufs, c.value, h.value.at))
  }

  /** The header read at `pos` is that of the flat decoder. */
  ghost predicate HeaderRead(bufs: Chain, pos: nat, end: nat, c: ChainHeader) {
    pos <= end <= |Flat(bufs)| && Agrees(bufs, c, ParseHeader(Flat(bufs), pos, end), end)
  }

  /** The same, once tag, size and count are known. */
  ghost predicate ValueRead(bufs: Chain, end: nat, tag: Octet, size: nat, count: nat, at: nat, c: ChainHeader) {
    at <= end <= |Flat(bufs)| && Agrees(bufs, c, ParseValue(Flat(bufs), end, tag, size, count, at), end)
  }

  lemma {:induction false} NothingIs(bufs: Chain)
    ensures ExtentOf(bufs, NOTHING) == Extent(0, 0)
  {
    assert bufs[..0] == [];
  }

  lemma {:induction false} BeginsExtent(bufs: Chain, f: Field, pos: nat)
    requires Begins(bufs, f, pos)
    ensures ExtentOf(bufs, f) == Extent(pos, f.remaining)
  {
  }

  lemma {:induction false} Shortened(bufs: Chain, f: Field, pos: nat, len: nat)
    requires Begins(bufs, f, pos)
    ensures ExtentOf(bufs, f.(remaining := len)) == Extent(pos, len)
    ensures len <= f.remaining ==> Begins(bufs, f.(remaining := len), pos)
  {
  }

  lemma {:induction false} Fails(bufs: Chain, tag: Octet, size: nat, count: nat, f: Field, pos: nat, error: Error)
    requires Begins(bufs, f, pos) && error != NoError
    ensures Agrees(bufs, ChainHeader(tag, size, count, NOTHING, f, error),
                   Header(tag, size, count, Extent(0, 0), pos, error), pos + f.remaining)
  {
    NothingIs(bufs);
  }

  /** Checks a header and skips over the value. */
  method DecodeValue(bufs: Chain, f: Field, tag: Octet, size: nat, count: nat, ghost at: nat, ghost end: nat)
    returns (c: ChainHeader)
    requires Begins(bufs, f, at) && at + f.remaining == end <= |Flat(bufs)|
    ensures ValueRead(bufs, end, tag, size, count, at, c)
  {
    hide Flat, Begins, ExtentOf, StandsAt;
    if IsMap(tag) && count % 2 == 1 {
      Fails(bufs, tag, size, count, f, at, OddMap);
      return ChainHeader(tag, size, count, NOTHING, f, OddMap);
    }
    if CountLength(tag) > size {
      Fails(bufs, tag, size, count, f, at, ShortLength);
      return ChainHeader(tag, size, count, NOTHING, f, ShortLength);
    }
    var len := size - CountLength(tag);
    Shortened(bufs, f, at, len);
    var moved, g := Advance(bufs, f, len, at);
    if moved != len {
      return ChainHeader(tag, size, count, f.(remaining := len), g, Truncated);
    }
    c := ChainHeader(tag, size, count, f.(remaining := len), g, NoError);
  }

  lemma {:induction false} HeaderFixed(s: seq<Octet>, pos: nat, end: nat)
    requires pos <= end <= |s|
    ensures pos == end ==> ParseHeader(s, pos, end) == Header(0, 0, 0, Extent(0, 0), pos, NoTag)
    ensures pos < end && s[pos] / 16 < 4 ==>
      ParseHeader(s, pos, end) == Header(s[pos], 0, 0, Extent(0, 0), pos + 1, BadTag)
    ensures pos < end && s[pos] / 16 >= 4 && SizeLength(s[pos]) == 0 ==>
      ParseHeader(s, pos, end) == ParseValue(s, end, s[pos], FixedSize(s[pos]), 0, pos + 1)
  {
    hide ParseValue, NumberAt;
  }

  /** The header of a field whose size and count have four octets. */
  lemma {:induction false} HeaderLong(s: seq<Octet>, pos: nat, end: nat)
    requires pos < end <= |s| && SizeLength(s[pos]) == 4
    ensures end - pos < 5 ==> ParseHeader(s, pos, end) == Header(s[pos], 0, 0, Extent(0, 0), pos + 1, NoLength)
    ensures end - pos >= 5 && CountLength(s[pos]) == 0 ==>
      ParseHeader(s, pos, end) == ParseValue(s, end, s[pos], NumberAt(s, pos + 1, 4), 0, pos + 5)
    ensures end - pos >= 5 && CountLength(s[pos]) == 4 && end - pos < 9 ==>
      ParseHeader(s, pos, end) == Header(s[pos], NumberAt(s, pos + 1, 4), 0, Extent(0, 0), pos + 5, NoCount)
    ensures CountLength(s[pos]) == 4 && end - pos >= 9 ==>
      ParseHeader(s, pos, end) ==
        ParseValue(s, end, s[pos], NumberAt(s, pos + 1, 4), NumberAt(s, pos + 5, 4), pos + 9)
    ensures CountLength(s[pos]) == 0 || CountLength(s[pos]) == 4
  {
    hide ParseValue, NumberAt;
  }

  /** The header of a field whose size and count have one octet. */
  lemma {:induction false} HeaderShort(s: seq<Octet>, pos: nat, end: nat)
    requires pos < end <= |s| && SizeLength(s[pos]) == 1
    ensures end - pos < 2 ==> ParseHeader(s, pos, end) == Header(s[pos], 0, 0, Extent(0, 0), pos + 1, NoLength)
    ensures end - pos >= 2 && CountLength(s[pos]) == 0 ==>
      ParseHeader(s, pos, end) == ParseValue(s, end, s[pos], s[pos + 1], 0, pos + 2)
    ensures end - pos == 2 && CountLength(s[pos]) == 1 ==>
      ParseHeader(s, pos, end) == Header(s[pos], s[pos + 1], 0, Extent(0, 0), pos + 2, NoCount)
    ensures CountLength(s[pos]) == 1 && end - pos >= 3 ==>
      ParseHeader(s, pos, end) == ParseValue(s, end, s[pos], s[pos + 1], s[pos + 2], pos + 3)
    ensures CountLength(s[pos]) == 0 || CountLength(s[pos]) == 1
  {
    hide ParseValue;
    if end - pos >= 2 {
      OneNumber(s, pos + 1);
    }
    if end - pos >= 3 {
      OneNumber(s, pos + 2);
    }
  }

  /** A header that stops at an error, with the cursor at `at`. */
  lemma {:induction false} ReadFails(bufs: Chain, pos: nat, end: nat, tag: Octet, size: nat, f: Field, at: nat, error: Error)
    requires Begins(bufs, f, at) && at + f.remaining == end <= |Flat(bufs)| && pos <= end && error != NoError
    requires ParseHeader(Flat(bufs), pos, end) == Header(tag, size, 0, Extent(0, 0), at, error)
    ensures HeaderRead(bufs, pos, end, ChainHeader(tag, size, 0, NOTHING, f, error))
  {
    hide Flat, ParseHeader, Begins, ExtentOf;
    Fails(bufs, tag, size, 0, f, at, error);
  }

  lemma {:induction false} ReadValue(bufs: Chain, pos: nat, end: nat, tag: Octet, size: nat, count: nat, at: nat, c: ChainHeader)
    requires ValueRead(bufs, end, tag, size, count, at, c) && pos <= end
    requires ParseHeader(Flat(bufs), pos, end) == ParseValue(Flat(bufs), end, tag, size, count, at)
    ensures HeaderRead(bufs, pos, end, c)
  {
  }

  lemma {:induction false} InStream(bufs: Chain, f: Field, pos: nat)
    requires Begins(bufs, f, pos)
    ensures pos + f.remaining <= |Flat(bufs)|
  {
  }

  /** Reads tag, size and count through the cursor. */
  method DecodeHeader(bufs: Chain, f: Field, ghost pos: nat) returns (c: ChainHeader)
    requires Begins(bufs, f, pos)
    ensures HeaderRead(bufs, pos, pos + f.remaining, c)
  {
    hide *;
    ghost var end := pos + f.remaining;
    InStream(bufs, f, pos);
    HeaderFixed(Flat(bufs), pos, end);
    var ok, tag, g := NextOctet(bufs, f, pos);
    if !ok {
      ReadFails(bufs, pos, end, 0, 0, f, pos, NoTag);
      c := ChainHeader(0, 0, 0, NOTHING, f, NoTag);
    } else if tag / 16 < 4 {
      ReadFails(bufs, pos, end, tag, 0, g, pos + 1, BadTag);
      c := ChainHeader(tag, 0, 0, NOTHING, g, BadTag);
    } else if SizeLength(tag) == 0 {
      c := DecodeValue(bufs, g, tag, FixedSize(tag), 0, pos + 1, end);
      ReadValue(bufs, pos, end, tag, FixedSize(tag), 0, pos + 1, c);
    } else if SizeLength(tag) == 4 {
      c := DecodeLong(bufs, g, tag, pos, end);
    } else {
      OtherSize(tag);
      c := DecodeShort(bufs, g, tag, pos, end);
    }
  }

  lemma {:induction false} OtherSize(tag: Octet)
    ensures SizeLength(tag) == 0 || SizeLength(tag) == 1 || SizeLength(tag) == 4
  {
  }

  /** Size and count of four octets each. */
  method DecodeLong(bufs: Chain, f: Field, tag: Octet, ghost pos: nat, ghost end: nat) returns (c: ChainHeader)
    requires Begins(bufs, f, pos + 1) && pos + 1 + f.remaining == end <= |Flat(bufs)|
    requires SizeLength(tag) == 4 && Flat(bufs)[pos] == tag
    ensures HeaderRead(bufs, pos, end, c)
  {
    hide *;
    HeaderLong(Flat(bufs), pos, end);
    var ok, size, g := NextUInt32(bufs, f, pos + 1);
    if !ok {
      ReadFails(bufs, pos, end, tag, 0, g, pos + 1, NoLength);
      return ChainHeader(tag, 0, 0, NOTHING, g, NoLength);
    }
    if CountLength(tag) == 0 {
      c := DecodeValue(bufs, g, tag, size, 0, pos + 5, end);
      ReadValue(bufs, pos, end, tag, size, 0, pos + 5, c);
    } else {
      var count;
      ok, count, g := NextUInt32(bufs, g, pos + 5);
      if !ok {
        ReadFails(bufs, pos, end, tag, size, g, pos + 5, NoCount);
        return ChainHeader(tag, size, 0, NOTHING, g, NoCount);
      }
      c := DecodeValue(bufs, g, tag, size, count, pos + 9, end);
      ReadValue(bufs, pos, end, tag, size, count, pos + 9, c);
    }
  }

  lemma {:induction false} OneNumber(s: seq<Octet>, i: nat)
    requires i < |s|
    ensures Number(s[i..i + 1]) == s[i]
  {
    assert s[i..i + 1] == [s[i]];
    OneOctet(s[i]);
  }

  /** Size and count of one octet each. */
  method DecodeShort(bufs: Chain, f: Field, tag: Octet, ghost pos: nat, ghost end: nat) returns (c: ChainHeader)
    requires Begins(bufs, f, pos + 1) && pos + 1 + f.remaining == end <= |Flat(bufs)|
    requires SizeLength(tag) == 1 && Flat(bufs)[pos] == tag
    ensures HeaderRead(bufs, pos, end, c)
  {
    hide *;
    HeaderShort(Flat(bufs), pos, end);
    var ok, size, g := NextOctet(bufs, f, pos + 1);
    if !ok {
      ReadFails(bufs, pos, end, tag, 0, g, pos + 1, NoLength);
      return ChainHeader(tag, 0, 0, NOTHING, g, NoLength);
    }
    if CountLength(tag) == 0 {
      c := DecodeValue(bufs, g, tag, size, 0, pos + 2, end);
      ReadValue(bufs, pos, end, tag, size, 0, pos + 2, c);
    } else {
      var count;
      ok, count, g := NextOctet(bufs, g, pos + 2);
      if !ok {
        ReadFails(bufs, pos, end, tag, size, g, pos + 2, NoCount);
        return ChainHeader(tag, size, 0, NOTHING, g, NoCount);
      }
      c := DecodeValue(bufs, g, tag, size, count, pos + 3, end);
      ReadValue(bufs, pos, end, tag, size, count, pos + 3, c);
    }
  }

  /** What is left of decoding the children after some of them. */
  ghost predicate SoFar(bufs: Chain, all: (seq<Node<Extent>>, Error), children: seq<Node<Field>>, error: Error,
                        at: nat, end: nat, left: nat)
  {
    if error != NoError then all == (FlatNodes(bufs, children), error)
    else
      && at <= end <= |Flat(bufs)|
      && var r := ParseChildren(Flat(bufs), at, end, left);
      all == (FlatNodes(bufs, children) + r.0, r.1)
  }

  lemma {:induction false} SoFarStarts(bufs: Chain, at: nat, end: nat, count: nat)
    requires at <= end <= |Flat(bufs)|
    ensures SoFar(bufs, ParseChildren(Flat(bufs), at, end, count), [], NoError, at, end, count)
  {
    var r := ParseChildren(Flat(bufs), at, end, count);
    assert FlatNodes(bufs, []) + r.0 == r.0;
  }

  lemma {:induction false} SoFarEnds(bufs: Chain, all: (seq<Node<Extent>>, Error), children: seq<Node<Field>>, error: Error,
                  at: nat, end: nat, left: nat)
    requires SoFar(bufs, all, children, error, at, end, left) && (error != NoError || left == 0)
    ensures all == (FlatNodes(bufs, children), error)
  {
    assert FlatNodes(bufs, children) + [] == FlatNodes(bufs, children);
  }

  lemma {:induction false} SoFarGoesOn(bufs: Chain, all: (seq<Node<Extent>>, Error), children: seq<Node<Field>>, child: Node<Field>,
                    at: nat, end: nat, left: nat)
    requires SoFar(bufs, all, children, NoError, at, end, left) && left > 0
    requires FlatNode(bufs, child) == Parse(Flat(bufs), at, end).0
    ensures SoFar(bufs, all, children + [child], child.error, Parse(Flat(bufs), at, end).1, end, left - 1)
  {
    hide Parse, Flat, FlatNodes;
    var (node, next) := Parse(Flat(bufs), at, end);
    if child.error != NoError {
      OneMore(bufs, children, child, []);
      assert [node] + [] == [node];
      assert FlatNodes(bufs, children + [child]) + [] == FlatNodes(bufs, children + [child]);
    } else {
      OneMore(bufs, children, child, ParseChildren(Flat(bufs), next, end, left - 1).0);
    }
  }

  /** The tree has the extents and errors that the flat decoder finds, and the cursor
      ends where that one ends. */
  ghost predicate Decoded(bufs: Chain, f: Field, pos: nat, n: Node<Field>, rest: Field) {
    && pos + f.remaining <= |Flat(bufs)|
    && var (node, next) := Parse(Flat(bufs), pos, pos + f.remaining);
    FlatNode(bufs, n) == node && Begins(bufs, rest, next) && next + rest.remaining == pos + f.remaining
  }

  lemma {:induction false} DecodedFails(bufs: Chain, f: Field, pos: nat, c: ChainHeader)
    requires Begins(bufs, f, pos) && c.error != NoError && HeaderRead(bufs, pos, pos + f.remaining, c)
    ensures Decoded(bufs, f, pos, Node(c.tag, c.size, c.count, c.value, f, [], c.error), c.rest)
  {
    hide Flat, Parse, ParseHeader, ParseChildren, StandsAt, Begins, ExtentOf;
    BeginsExtent(bufs, f, pos);
    ParseFails(Flat(bufs), pos, pos + f.remaining);
    assert FlatNodes(bufs, []) == [];
  }

  lemma {:induction false} ParseFails(s: seq<Octet>, pos: nat, end: nat)
    requires pos <= end <= |s|
    ensures var h := ParseHeader(s, pos, end);
      h.error != NoError ==>
        Parse(s, pos, end) ==
          (Node(h.tag, h.size, h.count, h.value, Extent(pos, end - pos), [], h.error), h.next)
  {
    hide ParseHeader, ParseChildren;
  }

  lemma {:induction false} ParseWhole(s: seq<Octet>, pos: nat, end: nat)
    requires pos <= end <= |s|
    ensures var h := ParseHeader(s, pos, end);
      h.error == NoError ==>
        var (ns, error) := ParseChildren(s, h.value.at, h.next, h.count);
        Parse(s, pos, end) ==
          (Node(h.tag, h.size, h.count, h.value, Extent(pos, h.next - pos), ns, error), h.next)
  {
    hide ParseHeader, ParseChildren;
  }

  /** The fields inside a value are those the flat decoder finds. */
  ghost predicate ChildrenRead(bufs: Chain, f: Field, count: nat, pos: nat, children: seq<Node<Field>>, error: Error) {
    && pos + f.remaining <= |Flat(bufs)|
    && ParseChildren(Flat(bufs), pos, pos + f.remaining, count) == (FlatNodes(bufs, children), error)
  }

  lemma {:induction false} ReadHeader(bufs: Chain, f: Field, pos: nat, c: ChainHeader) returns (at: nat)
    requires HeaderRead(bufs, pos, pos + f.remaining, c) && c.error == NoError
    ensures Begins(bufs, c.value, at) && c.value.remaining < f.remaining && c.rest.remaining <= f.remaining
    ensures at == ParseHeader(Flat(bufs), pos, pos + f.remaining).value.at
    ensures at + c.value.remaining == ParseHeader(Flat(bufs), pos, pos + f.remaining).next
  {
    hide Flat, ParseHeader, Begins, ExtentOf;
    at := ParseHeader(Flat(bufs), pos, pos + f.remaining).value.at;
    BeginsExtent(bufs, c.value, at);
  }

  lemma {:induction false} DecodedWhole(bufs: Chain, f: Field, pos: nat, c: ChainHeader, at: nat,
                                        children: seq<Node<Field>>, error: Error)
    requires Begins(bufs, f, pos) && c.error == NoError && HeaderRead(bufs, pos, pos + f.remaining, c)
    requires at == ParseHeader(Flat(bufs), pos, pos + f.remaining).value.at
    requires at + c.value.remaining == ParseHeader(Flat(bufs), pos, pos + f.remaining).next
    requires ChildrenRead(bufs, c.value, c.count, at, children, error) && c.rest.remaining <= f.remaining
    ensures Decoded(bufs, f, pos,
                    Node(c.tag, c.size, c.count, c.value, f.(remaining := f.remaining - c.rest.remaining), children, error),
                    c.rest)
  {
    hide Flat, Parse, ParseHeader, ParseChildren, StandsAt, Begins, FlatNodes, ExtentOf;
    ParseWhole(Flat(bufs), pos, pos + f.remaining);
    Shortened(bufs, f, pos, f.remaining - c.rest.remaining);
  }

  /** Decodes a field and those inside it. */
  method DecodeField(bufs: Chain, f: Field, ghost pos: nat) returns (n: Node<Field>, rest: Field)
    requires Begins(bufs, f, pos)
    ensures Decoded(bufs, f, pos, n, rest)
    decreases f.remaining, 1
  {
    hide *;
    var c := DecodeHeader(bufs, f, pos);
    rest := c.rest;
    if c.error != NoError {
      DecodedFails(bufs, f, pos, c);
      return Node(c.tag, c.size, c.count, c.value, f, [], c.error), rest;
    }
    ghost var at := ReadHeader(bufs, f, pos, c);
    var children, error := DecodeChildren(bufs, c.value, c.count, at, f.remaining);
    DecodedWhole(bufs, f, pos, c, at, children, error);
    n := Node(c.tag, c.size, c.count, c.value, f.(remaining := f.remaining - c.rest.remaining), children, error);
  }

  /** The cursor stands behind the children decoded so far. */
  ghost predicate Going(bufs: Chain, all: (seq<Node<Extent>>, Error), children: seq<Node<Field>>, error: Error,
                        cursor: Field, at: nat, end: nat, left: nat)
  {
    && SoFar(bufs, all, children, error, at, end, left)
    && (error == NoError ==> Begins(bufs, cursor, at) && at + cursor.remaining == end)
  }

  lemma {:induction false} GoingStarts(bufs: Chain, f: Field, pos: nat, count: nat)
    returns (all: (seq<Node<Extent>>, Error))
    requires Begins(bufs, f, pos)
    ensures pos + f.remaining <= |Flat(bufs)| && all == ParseChildren(Flat(bufs), pos, pos + f.remaining, count)
    ensures Going(bufs, all, [], NoError, f, pos, pos + f.remaining, count)
  {
    SoFarStarts(bufs, pos, pos + f.remaining, count);
    all := ParseChildren(Flat(bufs), pos, pos + f.remaining, count);
    hide SoFar, ParseChildren, Flat;
  }

  lemma {:induction false} GoesOn(bufs: Chain, all: (seq<Node<Extent>>, Error), children: seq<Node<Field>>,
                                  cursor: Field, at: nat, end: nat, left: nat, child: Node<Field>, next: Field)
    returns (to: nat)
    requires Going(bufs, all, children, NoError, cursor, at, end, left) && left > 0
    requires Decoded(bufs, cursor, at, child, next)
    ensures Going(bufs, all, children + [child], child.error, next, to, end, left - 1)
    ensures next.remaining <= cursor.remaining
  {
    assert at <= end <= |Flat(bufs)| by { hide Flat, Begins, ParseChildren, FlatNodes, Decoded; }
    hide Flat, SoFar, ParseChildren, FlatNodes, FlatNode, Parse, Begins;
    SoFarGoesOn(bufs, all, children, child, at, end, left);
    to := Parse(Flat(bufs), at, end).1;
  }

  /** Decodes up to `count` fields inside a value, and stops at the first that fails. */
  method DecodeChildren(bufs: Chain, f: Field, count: nat, ghost pos: nat, ghost bound: nat)
    returns (children: seq<Node<Field>>, error: Error)
    requires Begins(bufs, f, pos) && f.remaining < bound
    ensures ChildrenRead(bufs, f, count, pos, children, error)
    decreases bound, 0
  {
    hide *;
    children := [];
    error := NoError;
    var cursor := f;
    var i := 0;
    ghost var end, at := pos + f.remaining, pos;
    ghost var all := GoingStarts(bufs, f, pos, count);
    while i < count && error == NoError
      invariant i <= count && Going(bufs, all, children, error, cursor, at, end, count - i)
      invariant cursor.remaining < bound
    {
      MayGoOn(bufs, all, children, cursor, at, end, count - i);
      var child, next := DecodeField(bufs, cursor, at);
      at := GoesOn(bufs, all, children, cursor, at, end, count - i, child, next);
      children := children + [child];
      error := child.error;
      cursor := next;
      i := i + 1;
    }
    GoingEnds(bufs, all, children, error, cursor, at, end, count - i, f, pos, count);
  }

  lemma {:induction false} MayGoOn(bufs: Chain, all: (seq<Node<Extent>>, Error), children: seq<Node<Field>>,
                                   cursor: Field, at: nat, end: nat, left: nat)
    requires Going(bufs, all, children, NoError, cursor, at, end, left)
    ensures Begins(bufs, cursor, at)
  {
  }

  lemma {:induction false} GoingEnds(bufs: Chain, all: (seq<Node<Extent>>, Error), children: seq<Node<Field>>,
                                     error: Error, cursor: Field, at: nat, end: nat, left: nat,
                                     f: Field, pos: nat, count: nat)
    requires Going(bufs, all, children, error, cursor, at, end, left) && (error != NoError || left == 0)
    requires end == pos + f.remaining <= |Flat(bufs)| && all == ParseChildren(Flat(bufs), pos, end, count)
    ensures ChildrenRead(bufs, f, count, pos, children, error)
  {
    SoFarEnds(bufs, all, children, error, at, end, left);
  }

  lemma {:induction false} OneMore(bufs: Chain, ns: seq<Node<Field>>, n: Node<Field>, rest: seq<Node<Extent>>)
    ensures FlatNodes(bufs, ns) + ([FlatNode(bufs, n)] + rest) == FlatNodes(bufs, ns + [n]) + rest
  {
    assert (ns + [n])[..|ns|] == ns;
  }

  // ---------------------------------------------------------------- what every decode keeps to

  lemma {:induction false} SameNodes(bufs: Chain, n: Node<Field>)
    ensures Nodes(FlatNode(bufs, n)) == Nodes(n)
    decreases n, 1
  {
    SameNodesOf(bufs, n.children);
  }

  lemma {:induction false} SameNodesOf(bufs: Chain, ns: seq<Node<Field>>)
    ensures NodesOf(FlatNodes(bufs, ns)) == NodesOf(ns)
    decreases ns, 0
  {
    if ns != [] {
      var front, last := ns[..|ns| - 1], ns[|ns| - 1];
      SameNodesOf(bufs, front);
      SameNodes(bufs, last);
      NodesOfSnoc(FlatNodes(bufs, front), FlatNode(bufs, last));
      NodesOfSnoc(front, last);
      assert ns == front + [last];
    }
  }

  lemma {:induction false} NodesOfSnoc<E>(ns: seq<Node<E>>, n: Node<E>)
    ensures NodesOf(ns + [n]) == NodesOf(ns) + Nodes(n)
    decreases |ns|
  {
    if ns == [] {
      assert ([] + [n])[1..] == [];
    } else {
      NodesOfSnoc(ns[1..], n);
      assert (ns + [n])[1..] == ns[1..] + [n];
    }
  }

  /** Whatever the octets, the decoder makes at most one node for each and one more; when it
      succeeds, every child lies inside its parent's value, one behind the other. */
  lemma {:induction false} DecodeIsBounded(bufs: Chain, f: Field, pos: nat, n: Node<Field>, rest: Field)
    requires Decoded(bufs, f, pos, n, rest)
    ensures Nodes(n) <= f.remaining + 1
    ensures n.error == NoError ==> Nested(FlatNode(bufs, n)) && rest.remaining < f.remaining
  {
    hide Flat, Begins, Parse, ParseHeader, Nested, NodesOf, FlatNodes;
    SameNodes(bufs, n);
    NodeBound(Flat(bufs), pos, pos + f.remaining);
    if n.error == NoError {
      ParseNests(Flat(bufs), pos, pos + f.remaining);
    }
  }

  // ---------------------------------------------------------------- through the chain and back

  method ListLength(bufs: Chain) returns (length: nat)
    ensures length == |Flat(bufs)|
  {
    length := 0;
    for b := 0 to |bufs|
      invariant length == Offset(bufs, b)
    {
      OffsetStep(bufs, b);
      length := length + |bufs[b]|;
    }
    OffsetEnd(bufs);
  }

  lemma {:induction false} EncodedAlone(v: Value)
    ensures Compose.Render(Compose.Add([Compose.Frame(false, [])], v)) == Encode(v)
  {
    Compose.RenderAdd([Compose.Frame(false, [])], v);
    assert EncodeAll([]) + Encode(v) == Encode(v);
  }

  lemma {:induction false} WholeStream(bufs: Chain, v: Value, f: Field, n: Node<Field>, rest: Field)
    requires Flat(bufs) == Encode(v) && InRange(v) && |Encode(v)| < TWO_32
    requires f.remaining == |Flat(bufs)| && Decoded(bufs, f, 0, n, rest)
    ensures n.error == NoError && rest.remaining == 0 && Read(Flat(bufs), FlatNode(bufs, n)) == Some(v)
  {
    hide Encode, Parse, Flat, Read, InRange;
    assert Flat(bufs)[0..|Encode(v)|] == Encode(v);
    DecodeEncode(Flat(bufs), 0, |Flat(bufs)|, v);
  }

  /** A value composed into buffers of any capacity is decoded from them as itself, and every
      octet is consumed. */
  method ComposeThenDecode(v: Value, capacity: nat) returns (bufs: Chain, n: Node<Field>, rest: Field)
    requires InRange(v) && |Encode(v)| < TWO_32 && capacity > 0
    ensures n.error == NoError && rest.remaining == 0
    ensures Flat(bufs) == Encode(v) && forall b :: 0 <= b < |bufs| ==> |bufs[b]| <= capacity
    ensures Read(Flat(bufs), FlatNode(bufs, n)) == Some(v)
  {
    var composer := new Compose.Composer(capacity);
    composer.ComposeValue(v);
    bufs := composer.bufs;
    EncodedAlone(v);
    assert Encode(v) + [] == Encode(v);
    assert Flat(bufs) == Encode(v);
    assert bufs != [];
    assert bufs[..0] == [];
    assert StandsAt(bufs, Place(0, 0), 0);
    hide Flat, Decoded, StandsAt, Encode;
    var length := ListLength(bufs);
    var f := Normalize(bufs, Field(0, 0, length), 0);
    n, rest := DecodeField(bufs, f, 0);
    WholeStream(bufs, v, f, n, rest);
  }
}
