/** AMQP 1.0 typed values (Part 1, sections 1.2 and 1.6): their encoding as a flat octet sequence,
    and the decoder as a function on a flat octet sequence. */
module Amqp {
  import opened Basics
  import opened Options

  // ---------------------------------------------------------------- numbers

  function Pow256(n: nat): nat {
    if n == 0 then 1 else 256 * Pow256(n - 1)
  }

  /** The low `n` octets of a number, most significant first. */
  function Bytes(v: nat, n: nat): (s: seq<Octet>)
    ensures |s| == n
  {
    if n == 0 then [] else Bytes(v / 256, n - 1) + [v % 256]
  }

  function Number(s: seq<Octet>): nat {
    if s == [] then 0 else 256 * Number(s[..|s| - 1]) + s[|s| - 1]
  }

  /** The number in the `n` octets at `at`. */
  function NumberAt(s: seq<Octet>, at: nat, n: nat): nat
    requires at + n <= |s|
  {
    Number(s[at..at + n])
  }

  lemma {:induction false} NumberOfBytes(v: nat, n: nat)
    requires v < Pow256(n)
    ensures Number(Bytes(v, n)) == v
    decreases n
  {
    if n > 0 {
      NumberOfBytes(v / 256, n - 1);
      assert Bytes(v, n)[..n - 1] == Bytes(v / 256, n - 1);
    }
  }

  lemma {:induction false} NumberBelow(s: seq<Octet>)
    ensures Number(s) < Pow256(|s|)
    decreases |s|
  {
    if s != [] {
      NumberBelow(s[..|s| - 1]);
    }
  }

  const TWO_32 := 0x1_0000_0000
  const TWO_64 := 0x1_0000_0000_0000_0000

  lemma Powers()
    ensures Pow256(1) == 256 && Pow256(4) == TWO_32 && Pow256(8) == TWO_64
  {
    assert Pow256(2) == 0x1_0000 && Pow256(3) == 0x100_0000;
    assert Pow256(5) == 0x100_0000_0000 && Pow256(6) == 0x1_0000_0000_0000 && Pow256(7) == 0x100_0000_0000_0000;
  }

  /** The signed number a two's complement pattern stands for. */
  function Signed(v: nat, bound: nat): int {
    if 2 * v >= bound then v - bound else v
  }

  lemma SignedPattern(i: int)
    ensures -256 <= 2 * i < 256 ==> Signed(i % 256, 256) == i
    ensures -TWO_32 <= 2 * i < TWO_32 ==> Signed(i % TWO_32, TWO_32) == i
    ensures -TWO_64 <= 2 * i < TWO_64 ==> Signed(i % TWO_64, TWO_64) == i
  {
  }

  // ---------------------------------------------------------------- values

  datatype Value =
    | Null | Bool(b: bool)
    | UInt(n: nat) | ULong(n: nat) | Int(i: int) | Long(i: int)
    | Binary(octets: seq<Octet>) | Str(octets: seq<Octet>) | Symbol(octets: seq<Octet>)
    | List0 | List(items: seq<Value>) | Map(items: seq<Value>)

  /** The value is in the range of its type; a map lists keys and values in turn. */
  predicate InRange(v: Value) {
    match v
    case UInt(n) => n < TWO_32
    case ULong(n) => n < TWO_64
    case Int(i) => -TWO_32 <= 2 * i < TWO_32
    case Long(i) => -TWO_64 <= 2 * i < TWO_64
    case List(items) => forall k :: 0 <= k < |items| ==> InRange(items[k])
    case Map(items) => |items| % 2 == 0 && forall k :: 0 <= k < |items| ==> InRange(items[k])
    case _ => true
  }

  function Sized(tag8: Octet, tag32: Octet, octets: seq<Octet>): seq<Octet> {
    if |octets| < 256 then [tag8, |octets|] + octets else [tag32] + Bytes(|octets|, 4) + octets
  }

  function Encode(v: Value): (s: seq<Octet>)
    ensures s != []
    decreases v
  {
    match v
    case Null => [0x40]
    case Bool(b) => if b then [0x41] else [0x42]
    case UInt(n) => if n == 0 then [0x43] else if n < 256 then [0x52, n] else [0x70] + Bytes(n, 4)
    case ULong(n) => if n == 0 then [0x44] else if n < 256 then [0x53, n] else [0x80] + Bytes(n, 8)
    case Int(i) => if -128 <= i <= 127 then [0x54, i % 256] else [0x71] + Bytes(i % TWO_32, 4)
    case Long(i) => if -128 <= i <= 127 then [0x55, i % 256] else [0x81] + Bytes(i % TWO_64, 8)
    case Binary(octets) => Sized(0xA0, 0xB0, octets)
    case Str(octets) => Sized(0xA1, 0xB1, octets)
    case Symbol(octets) => Sized(0xA3, 0xB3, octets)
    case List0 => [0x45]
    case List(items) => Compound(0xD0, |items|, EncodeAll(items))
    case Map(items) => Compound(0xD1, |items|, EncodeAll(items))
  }

  function EncodeAll(items: seq<Value>): seq<Octet>
    decreases items
  {
    if items == [] then [] else EncodeAll(items[..|items| - 1]) + Encode(items[|items| - 1])
  }

  /** A compound: tag, size (the count field and the items), count, items. */
  function Compound(tag: Octet, count: nat, body: seq<Octet>): (s: seq<Octet>)
    ensures |s| == 9 + |body|
  {
    [tag] + Bytes(4 + |body|, 4) + Bytes(count, 4) + body
  }

  // ---------------------------------------------------------------- the decoder

  datatype Error = NoError | NoTag | NoLength | NoCount | BadTag | OddMap | ShortLength | Truncated

  datatype Extent = Extent(at: nat, len: nat)

  /** A decoded field: header, extents of the value and of the whole field, and the fields inside. */
  datatype Node<E> = Node(tag: Octet, size: nat, count: nat, value: E, full: E,
                          children: seq<Node<E>>, error: Error)

  /** The width of the size field, and of the count field, by the high half of the tag. */
  function SizeLength(tag: Octet): nat {
    if tag / 16 < 0xA then 0 else if tag / 16 % 2 == 0 then 1 else 4
  }

  function CountLength(tag: Octet): nat {
    if tag / 16 < 0xC then 0 else if tag / 16 % 2 == 0 then 1 else 4
  }

  /** The size of a fixed-width type, by the high half of its tag. */
  function FixedSize(tag: Octet): nat {
    match tag / 16
    case 5 => 1
    case 6 => 2
    case 7 => 4
    case 8 => 8
    case 9 => 16
    case _ => 0
  }

  predicate IsMap(tag: Octet) {
    tag == 0xC1 || tag == 0xD1
  }

  /** A field's header: `next` is where the cursor stands afterwards. */
  datatype Header = Header(tag: Octet, size: nat, count: nat, value: Extent, next: nat, error: Error)

  /** Decodes one header at `pos`, in a field that ends at `end`. */
  function ParseHeader(s: seq<Octet>, pos: nat, end: nat): (h: Header)
    requires pos <= end <= |s|
    ensures pos <= h.next <= end
    ensures h.error == NoError ==> pos < h.value.at <= h.next && h.value.at + h.value.len == h.next
  {
    var none := Extent(0, 0);
    if pos == end then Header(0, 0, 0, none, pos, NoTag)
    else
      var tag := s[pos];
      var a, b := SizeLength(tag), CountLength(tag);
      if tag / 16 < 4 then Header(tag, 0, 0, none, pos + 1, BadTag)
      else if a == 0 then ParseValue(s, end, tag, FixedSize(tag), 0, pos + 1)
      else if end - (pos + 1) < a then Header(tag, 0, 0, none, pos + 1, NoLength)
      else
        var size := NumberAt(s, pos + 1, a);
        if b == 0 then ParseValue(s, end, tag, size, 0, pos + 1 + a)
        else if end - (pos + 1 + a) < b then Header(tag, size, 0, none, pos + 1 + a, NoCount)
        else ParseValue(s, end, tag, size, NumberAt(s, pos + 1 + a, b), pos + 1 + a + b)
  }

  /** Checks the header and skips over the value at `at`. */
  function ParseValue(s: seq<Octet>, end: nat, tag: Octet, size: nat, count: nat, at: nat): (h: Header)
    requires at <= end <= |s|
    ensures at <= h.next <= end
    ensures h.error == NoError ==> h.value.at == at && at + h.value.len == h.next
  {
    if IsMap(tag) && count % 2 == 1 then Header(tag, size, count, Extent(0, 0), at, OddMap)
    else if CountLength(tag) > size then Header(tag, size, count, Extent(0, 0), at, ShortLength)
    else
      var len := size - CountLength(tag);
      if end - at < len then Header(tag, size, count, Extent(at, len), end, Truncated)
      else Header(tag, size, count, Extent(at, len), at + len, NoError)
  }

  /** Decodes the field at `pos` and those inside it; the second result is where the cursor ends. */
  function Parse(s: seq<Octet>, pos: nat, end: nat): (r: (Node<Extent>, nat))
    requires pos <= end <= |s|
    ensures pos <= r.1 <= end
    ensures r.0.error == NoError ==> pos < r.1
    decreases end - pos, 0
  {
    var h := ParseHeader(s, pos, end);
    if h.error != NoError then
      (Node(h.tag, h.size, h.count, h.value, Extent(pos, end - pos), [], h.error), h.next)
    else
      var (children, error) := ParseChildren(s, h.value.at, h.next, h.count);
      (Node(h.tag, h.size, h.count, h.value, Extent(pos, h.next - pos), children, error), h.next)
  }

  /** Decodes up to `count` fields, stopping at the first that fails. */
  function ParseChildren(s: seq<Octet>, pos: nat, end: nat, count: nat): (seq<Node<Extent>>, Error)
    requires pos <= end <= |s|
    decreases end - pos, 1
  {
    if count == 0 then ([], NoError)
    else
      var (child, next) := Parse(s, pos, end);
      if child.error != NoError then ([child], child.error)
      else
        var (rest, error) := ParseChildren(s, next, end, count - 1);
        ([child] + rest, error)
  }

  // ---------------------------------------------------------------- bounds

  function Nodes<E>(n: Node<E>): nat {
    1 + NodesOf(n.children)
  }

  function NodesOf<E>(ns: seq<Node<E>>): nat {
    if ns == [] then 0 else Nodes(ns[0]) + NodesOf(ns[1..])
  }

  /** Whatever the count fields claim, a node is made for each octet at most, and one more. A
      decode that succeeds makes at most one for each octet consumed. */
  lemma {:induction false} NodeBound(s: seq<Octet>, pos: nat, end: nat)
    requires pos <= end <= |s|
    ensures Nodes(Parse(s, pos, end).0) <= end - pos + 1
    ensures Parse(s, pos, end).0.error == NoError ==> Nodes(Parse(s, pos, end).0) <= Parse(s, pos, end).1 - pos
    decreases end - pos, 0
  {
    var h := ParseHeader(s, pos, end);
    if h.error == NoError {
      ChildrenBound(s, h.value.at, h.next, h.count);
    }
  }

  lemma {:induction false} ChildrenBound(s: seq<Octet>, pos: nat, end: nat, count: nat)
    requires pos <= end <= |s|
    ensures NodesOf(ParseChildren(s, pos, end, count).0) <= end - pos + 1
    ensures ParseChildren(s, pos, end, count).1 == NoError ==>
              NodesOf(ParseChildren(s, pos, end, count).0) <= end - pos
    decreases end - pos, 1
  {
    if count > 0 {
      NodeBound(s, pos, end);
      var (child, next) := Parse(s, pos, end);
      if child.error == NoError {
        ChildrenBound(s, next, end, count - 1);
        var (rest, error) := ParseChildren(s, next, end, count - 1);
        assert ([child] + rest)[1..] == rest;
      }
    }
  }

  // ---------------------------------------------------------------- extents

  function End(e: Extent): nat {
    e.at + e.len
  }

  /** Fields laid end to end from `at`, each within `end`. */
  predicate EndToEnd(ns: seq<Node<Extent>>, at: nat, end: nat) {
    if ns == [] then at <= end
    else ns[0].full.at == at && End(ns[0].full) <= end && EndToEnd(ns[1..], End(ns[0].full), end)
  }

  /** The children lie one behind the other, inside the parent's value, and so do theirs. */
  predicate Nested(n: Node<Extent>) {
    && n.full.at < n.value.at && End(n.value) == End(n.full)
    && EndToEnd(n.children, n.value.at, End(n.value))
    && |n.children| == n.count
    && forall k :: 0 <= k < |n.children| ==> Nested(n.children[k])
  }

  /** A successful decode nests every child inside its parent's value, in order. */
  lemma {:induction false} ParseNests(s: seq<Octet>, pos: nat, end: nat)
    requires pos <= end <= |s| && Parse(s, pos, end).0.error == NoError
    ensures Nested(Parse(s, pos, end).0)
    ensures Parse(s, pos, end).0.full == Extent(pos, Parse(s, pos, end).1 - pos)
    decreases end - pos, 0
  {
    var h := ParseHeader(s, pos, end);
    ChildrenNest(s, h.value.at, h.next, h.count);
  }

  lemma {:induction false} ChildrenNest(s: seq<Octet>, pos: nat, end: nat, count: nat)
    requires pos <= end <= |s| && ParseChildren(s, pos, end, count).1 == NoError
    ensures var ns := ParseChildren(s, pos, end, count).0;
      |ns| == count && EndToEnd(ns, pos, end) && forall k :: 0 <= k < |ns| ==> Nested(ns[k])
    decreases end - pos, 1
  {
    if count > 0 {
      hide Nested;
      ParseNests(s, pos, end);
      var (child, next) := Parse(s, pos, end);
      ChildrenNest(s, next, end, count - 1);
      var (rest, error) := ParseChildren(s, next, end, count - 1);
      assert ([child] + rest)[1..] == rest;
    }
  }

  lemma {:induction false} EndToEndOrdered(ns: seq<Node<Extent>>, at: nat, end: nat, j: nat, k: nat)
    requires EndToEnd(ns, at, end) && j < k < |ns|
    ensures at <= ns[j].full.at && End(ns[j].full) <= ns[k].full.at && End(ns[k].full) <= end
    decreases |ns|
  {
    if j > 0 {
      EndToEndOrdered(ns[1..], End(ns[0].full), end, j - 1, k - 1);
    } else if k > 1 {
      EndToEndOrdered(ns[1..], End(ns[0].full), end, 0, k - 1);
    }
  }

  // ---------------------------------------------------------------- reading a decoded field

  /** The octets of a field's value. */
  function Octets(s: seq<Octet>, e: Extent): seq<Octet> {
    if End(e) <= |s| then s[e.at..End(e)] else []
  }

  /** An unsigned field, of any width. */
  function AsUnsigned(s: seq<Octet>, n: Node<Extent>): nat {
    Number(Octets(s, n.value))
  }

  /** A signed field of `width` octets. */
  function AsSigned(s: seq<Octet>, n: Node<Extent>, width: nat): int {
    Signed(Number(Octets(s, n.value)), Pow256(width))
  }

  /** The value a decoded tree stands for. */
  function Read(s: seq<Octet>, n: Node<Extent>): Option<Value>
    decreases n
  {
    if n.error != NoError then None
    else match n.tag
    case 0x40 => Some(Null)
    case 0x41 => Some(Bool(true))
    case 0x42 => Some(Bool(false))
    case 0x43 => Some(UInt(0))
    case 0x52 => Some(UInt(AsUnsigned(s, n)))
    case 0x70 => Some(UInt(AsUnsigned(s, n)))
    case 0x44 => Some(ULong(0))
    case 0x53 => Some(ULong(AsUnsigned(s, n)))
    case 0x80 => Some(ULong(AsUnsigned(s, n)))
    case 0x54 => Some(Int(AsSigned(s, n, 1)))
    case 0x71 => Some(Int(AsSigned(s, n, 4)))
    case 0x55 => Some(Long(AsSigned(s, n, 1)))
    case 0x81 => Some(Long(AsSigned(s, n, 8)))
    case 0xA0 => Some(Binary(Octets(s, n.value)))
    case 0xB0 => Some(Binary(Octets(s, n.value)))
    case 0xA1 => Some(Str(Octets(s, n.value)))
    case 0xB1 => Some(Str(Octets(s, n.value)))
    case 0xA3 => Some(Symbol(Octets(s, n.value)))
    case 0xB3 => Some(Symbol(Octets(s, n.value)))
    case 0x45 => Some(List0)
    case 0xD0 => var items := ReadAll(s, n.children); if items == None then None else Some(List(items.value))
    case 0xD1 => var items := ReadAll(s, n.children); if items == None then None else Some(Map(items.value))
    case _ => None
  }

  function ReadAll(s: seq<Octet>, ns: seq<Node<Extent>>): Option<seq<Value>>
    decreases ns
  {
    if ns == [] then Some([])
    else
      var first, rest := Read(s, ns[0]), ReadAll(s, ns[1..]);
      if first == None || rest == None then None else Some([first.value] + rest.value)
  }

  // ---------------------------------------------------------------- encode, then decode

  /** The sequence `t` lies at `pos` in `s`, within `end`. */
  predicate At(s: seq<Octet>, pos: nat, end: nat, t: seq<Octet>) {
    pos + |t| <= end <= |s| && s[pos..pos + |t|] == t
  }

  lemma AtParts(s: seq<Octet>, pos: nat, end: nat, t: seq<Octet>, u: seq<Octet>)
    requires At(s, pos, end, t + u)
    ensures At(s, pos, end, t) && At(s, pos + |t|, end, u)
  {
    assert s[pos..pos + |t|] == (t + u)[..|t|];
    assert s[pos + |t|..pos + |t| + |u|] == (t + u)[|t|..];
  }

  lemma AtThree(s: seq<Octet>, pos: nat, end: nat, x: Octet, t: seq<Octet>, u: seq<Octet>)
    requires At(s, pos, end, [x] + t + u)
    ensures pos < |s| && s[pos] == x
    ensures At(s, pos + 1, end, t) && At(s, pos + 1 + |t|, end, u)
  {
    AtParts(s, pos, end, [x] + t, u);
    AtParts(s, pos, end, [x], t);
    assert s[pos] == s[pos..pos + 1][0];
  }

  lemma {:induction false} EncodeAllSplit(a: seq<Value>, b: seq<Value>)
    ensures EncodeAll(a + b) == EncodeAll(a) + EncodeAll(b)
    decreases |b|
  {
    hide Encode;
    if b == [] {
      assert a + b == a;
    } else {
      var front, last := b[..|b| - 1], b[|b| - 1];
      EncodeAllSplit(a, front);
      assert (a + b)[..|a + b| - 1] == a + front;
      assert (a + b)[|a + b| - 1] == last;
      assert EncodeAll(a) + (EncodeAll(front) + Encode(last)) == (EncodeAll(a) + EncodeAll(front)) + Encode(last);
    }
  }

  lemma EncodeAllHead(items: seq<Value>)
    requires items != []
    ensures EncodeAll(items) == Encode(items[0]) + EncodeAll(items[1..])
  {
    assert items == [items[0]] + items[1..];
    EncodeAllSplit([items[0]], items[1..]);
    assert EncodeAll([items[0]]) == Encode(items[0]);
  }

  lemma {:induction false} ItemsAreOctets(items: seq<Value>)
    ensures |items| <= |EncodeAll(items)|
    decreases |items|
  {
    if items != [] {
      ItemsAreOctets(items[..|items| - 1]);
    }
  }

  lemma FixedHeader(s: seq<Octet>, pos: nat, end: nat, tag: Octet, body: seq<Octet>)
    requires 4 <= tag / 16 <= 9 && |body| == FixedSize(tag) && At(s, pos, end, [tag] + body)
    ensures ParseHeader(s, pos, end) ==
            Header(tag, |body|, 0, Extent(pos + 1, |body|), pos + 1 + |body|, NoError)
    ensures Octets(s, Extent(pos + 1, |body|)) == body
  {
    AtParts(s, pos, end, [tag], body);
    assert s[pos] == s[pos..pos + 1][0];
  }

  lemma FixedParse(s: seq<Octet>, pos: nat, end: nat, tag: Octet, body: seq<Octet>)
    requires 4 <= tag / 16 <= 9 && |body| == FixedSize(tag) && At(s, pos, end, [tag] + body)
    ensures var (n, next) := Parse(s, pos, end);
      && n == Node(tag, |body|, 0, Extent(pos + 1, |body|), Extent(pos, 1 + |body|), [], NoError)
      && next == pos + 1 + |body|
      && Octets(s, n.value) == body
  {
    FixedHeader(s, pos, end, tag, body);
    hide ParseHeader;
  }

  lemma SizedHeaderIs(s: seq<Octet>, pos: nat, end: nat, tag: Octet, width: nat, size: nat)
    requires 10 <= tag / 16 <= 11 && width == SizeLength(tag) && pos + 1 + width + size <= end <= |s|
    requires s[pos] == tag && NumberAt(s, pos + 1, width) == size
    ensures ParseHeader(s, pos, end) ==
            Header(tag, size, 0, Extent(pos + 1 + width, size), pos + 1 + width + size, NoError)
  {
    hide NumberAt;
  }

  lemma AtOctets(s: seq<Octet>, pos: nat, end: nat, t: seq<Octet>)
    requires At(s, pos, end, t)
    ensures Octets(s, Extent(pos, |t|)) == t && pos + |t| <= end <= |s| && s[pos..pos + |t|] == t
  {
  }

  lemma SizedHeader(s: seq<Octet>, pos: nat, end: nat, tag: Octet, x: seq<Octet>, body: seq<Octet>)
    requires 10 <= tag / 16 <= 11 && |x| == SizeLength(tag) && Number(x) == |body|
    requires At(s, pos, end, [tag] + x + body)
    ensures ParseHeader(s, pos, end) ==
            Header(tag, |body|, 0, Extent(pos + 1 + |x|, |body|), pos + 1 + |x| + |body|, NoError)
    ensures Octets(s, Extent(pos + 1 + |x|, |body|)) == body
  {
    hide Number, ParseHeader, SizeLength, At, Octets;
    AtThree(s, pos, end, tag, x, body);
    AtOctets(s, pos + 1, end, x);
    AtOctets(s, pos + 1 + |x|, end, body);
    SizedHeaderIs(s, pos, end, tag, |x|, |body|);
  }

  lemma SizedParse(s: seq<Octet>, pos: nat, end: nat, tag8: Octet, tag32: Octet, body: seq<Octet>)
    requires tag8 / 16 == 10 && tag32 / 16 == 11 && |body| < TWO_32
    requires At(s, pos, end, Sized(tag8, tag32, body))
    ensures var (n, next) := Parse(s, pos, end);
      && (n.tag == tag8 || n.tag == tag32) && n.error == NoError
      && next == pos + |Sized(tag8, tag32, body)|
      && Octets(s, n.value) == body
  {
    Powers();
    hide ParseHeader, At, Octets, Bytes, Number, Pow256;
    if |body| < 256 {
      assert [tag8] + [|body|] + body == Sized(tag8, tag32, body);
      OneOctet(|body|);
      SizedHeader(s, pos, end, tag8, [|body|], body);
    } else {
      NumberOfBytes(|body|, 4);
      SizedHeader(s, pos, end, tag32, Bytes(|body|, 4), body);
    }
  }

  lemma CompoundHeaderIs(s: seq<Octet>, pos: nat, end: nat, tag: Octet, size: nat, count: nat)
    requires tag == 0xD0 || (tag == 0xD1 && count % 2 == 0)
    requires 4 <= size && pos + 5 + size <= end <= |s|
    requires s[pos] == tag && NumberAt(s, pos + 1, 4) == size && NumberAt(s, pos + 5, 4) == count
    ensures ParseHeader(s, pos, end) ==
            Header(tag, size, count, Extent(pos + 9, size - 4), pos + 5 + size, NoError)
  {
    hide NumberAt;
  }

  lemma CompoundHeader(s: seq<Octet>, pos: nat, end: nat, tag: Octet, count: nat, body: seq<Octet>)
    requires tag == 0xD0 || (tag == 0xD1 && count % 2 == 0)
    requires 4 + |body| < TWO_32 && count < TWO_32 && At(s, pos, end, Compound(tag, count, body))
    ensures ParseHeader(s, pos, end) ==
            Header(tag, 4 + |body|, count, Extent(pos + 9, |body|), pos + 9 + |body|, NoError)
    ensures At(s, pos + 9, pos + 9 + |body|, body)
  {
    Powers();
    hide Number, Bytes, Pow256, ParseHeader;
    var x, y := Bytes(4 + |body|, 4), Bytes(count, 4);
    AtParts(s, pos, end, [tag] + x + y, body);
    AtThree(s, pos, end, tag, x, y);
    NumberOfBytes(4 + |body|, 4);
    NumberOfBytes(count, 4);
    CompoundHeaderIs(s, pos, end, tag, 4 + |body|, count);
  }

  /** Decoding what was encoded gives the value back and consumes exactly its octets, wherever
      it stands and whatever follows. */
  lemma {:induction false} DecodeEncode(s: seq<Octet>, pos: nat, end: nat, v: Value)
    requires InRange(v) && |Encode(v)| < TWO_32 && At(s, pos, end, Encode(v))
    ensures var (n, next) := Parse(s, pos, end);
      n.error == NoError && next == pos + |Encode(v)| && Read(s, n) == Some(v)
    decreases v, 0
  {
    hide Parse, At, Bytes, Octets, EncodeAll, ReadAll;
    match v
    case List(items) => DecodeCompound(s, pos, end, 0xD0, items);
    case Map(items) => DecodeCompound(s, pos, end, 0xD1, items);
    case Binary(octets) => SizedParse(s, pos, end, 0xA0, 0xB0, octets);
    case Str(octets) => SizedParse(s, pos, end, 0xA1, 0xB1, octets);
    case Symbol(octets) => SizedParse(s, pos, end, 0xA3, 0xB3, octets);
    case _ => DecodeScalar(s, pos, end, v);
  }

  predicate IsScalar(v: Value) {
    v.Null? || v.Bool? || v.UInt? || v.ULong? || v.Int? || v.Long? || v.List0?
  }

  /** Tag and octets of a scalar. */
  function ScalarParts(v: Value): (r: (Octet, seq<Octet>))
    requires IsScalar(v)
    ensures InRange(v) ==> 4 <= r.0 / 16 <= 9 && |r.1| == FixedSize(r.0) && Encode(v) == [r.0] + r.1
  {
    var e := Encode(v);
    (e[0], e[1..])
  }

  lemma ReadUnsigned(s: seq<Octet>, n: Node<Extent>, v: Value)
    requires (v.UInt? || v.ULong?) && InRange(v) && n.error == NoError
    requires n.tag == ScalarParts(v).0 && Octets(s, n.value) == ScalarParts(v).1
    ensures Read(s, n) == Some(v)
  {
    hide Number, Bytes, Pow256, ReadAll, Octets, Signed;
    ScalarNumber(v);
    var body := ScalarParts(v).1;
    assert AsUnsigned(s, n) == Number(body) == v.n;
    if v.n == 0 {
      assert n.tag == if v.UInt? then 0x43 else 0x44;
    } else if v.n < 256 {
      assert n.tag == if v.UInt? then 0x52 else 0x53;
    } else {
      assert n.tag == if v.UInt? then 0x70 else 0x80;
    }
  }

  lemma ReadSigned(s: seq<Octet>, n: Node<Extent>, v: Value)
    requires (v.Int? || v.Long?) && InRange(v) && n.error == NoError
    requires n.tag == ScalarParts(v).0 && Octets(s, n.value) == ScalarParts(v).1
    ensures Read(s, n) == Some(v)
  {
    hide Number, Bytes, Pow256, ReadAll, Octets, Signed;
    ScalarNumber(v);
    var body := ScalarParts(v).1;
    assert AsSigned(s, n, |body|) == v.i;
    if -128 <= v.i <= 127 {
      assert n.tag == (if v.Int? then 0x54 else 0x55) && |body| == 1;
    } else {
      assert n.tag == (if v.Int? then 0x71 else 0x81) && |body| == if v.Int? then 4 else 8;
    }
  }

  lemma ReadScalar(s: seq<Octet>, n: Node<Extent>, v: Value)
    requires IsScalar(v) && InRange(v) && n.error == NoError
    requires n.tag == ScalarParts(v).0 && Octets(s, n.value) == ScalarParts(v).1
    ensures Read(s, n) == Some(v)
  {
    if v.UInt? || v.ULong? {
      ReadUnsigned(s, n, v);
    } else if v.Int? || v.Long? {
      ReadSigned(s, n, v);
    } else {
      hide ReadAll, Octets, AsUnsigned, AsSigned;
    }
  }

  lemma DecodeScalar(s: seq<Octet>, pos: nat, end: nat, v: Value)
    requires IsScalar(v) && InRange(v) && At(s, pos, end, Encode(v))
    ensures var (n, next) := Parse(s, pos, end);
      n.error == NoError && next == pos + |Encode(v)| && Read(s, n) == Some(v)
  {
    assert pos <= end <= |s|;
    hide Parse, At, Octets, Read, Encode, FixedSize, ScalarParts;
    var (tag, body) := ScalarParts(v);
    FixedParse(s, pos, end, tag, body);
    ReadScalar(s, Parse(s, pos, end).0, v);
  }

  /** What the octets of a scalar say. */
  lemma ScalarNumber(v: Value)
    requires IsScalar(v) && InRange(v)
    ensures var (tag, body) := ScalarParts(v);
      && (v.UInt? || v.ULong? ==> Number(body) == v.n)
      && (v.Int? || v.Long? ==> Signed(Number(body), Pow256(|body|)) == v.i)
  {
    Powers();
    var (tag, body) := ScalarParts(v);
    assert body == Encode(v)[1..];
    match v
    case UInt(n) => if n >= 256 { NumberOfBytes(n, 4); } else if n > 0 { OneOctet(n); }
    case ULong(n) => if n >= 256 { NumberOfBytes(n, 8); } else if n > 0 { OneOctet(n); }
    case Int(i) =>
      SignedPattern(i);
      if -128 <= i <= 127 { OneOctet(i % 256); } else { NumberOfBytes(i % TWO_32, 4); }
    case Long(i) =>
      SignedPattern(i);
      if -128 <= i <= 127 { OneOctet(i % 256); } else { NumberOfBytes(i % TWO_64, 8); }
    case _ =>
  }

  lemma OneOctet(x: Octet)
    ensures Number([x]) == x
  {
    assert Number([]) == 0;
  }

  lemma {:induction false} DecodeCompound(s: seq<Octet>, pos: nat, end: nat, tag: Octet, items: seq<Value>)
    requires tag == 0xD0 || (tag == 0xD1 && |items| % 2 == 0)
    requires forall k :: 0 <= k < |items| ==> InRange(items[k])
    requires 9 + |EncodeAll(items)| < TWO_32 && At(s, pos, end, Compound(tag, |items|, EncodeAll(items)))
    ensures var (n, next) := Parse(s, pos, end);
      && n.error == NoError && n.tag == tag && next == pos + 9 + |EncodeAll(items)|
      && ReadAll(s, n.children) == Some(items)
    decreases items, 1
  {
    hide ParseHeader, At, EncodeAll, ReadAll, Compound, InRange, ParseChildren;
    ItemsAreOctets(items);
    CompoundHeader(s, pos, end, tag, |items|, EncodeAll(items));
    DecodeItems(s, pos + 9, pos + 9 + |EncodeAll(items)|, items);
  }

  lemma {:induction false} DecodeItems(s: seq<Octet>, pos: nat, end: nat, items: seq<Value>)
    requires forall k :: 0 <= k < |items| ==> InRange(items[k])
    requires |EncodeAll(items)| < TWO_32 && At(s, pos, end, EncodeAll(items))
    ensures var (ns, error) := ParseChildren(s, pos, end, |items|);
      error == NoError && ReadAll(s, ns) == Some(items)
    decreases items, 0
  {
    hide Parse, At, Encode, Read, InRange;
    if items != [] {
      var first, rest := items[0], items[1..];
      EncodeAllHead(items);
      AtParts(s, pos, end, Encode(first), EncodeAll(rest));
      DecodeEncode(s, pos, end, first);
      DecodeItems(s, pos + |Encode(first)|, end, rest);
      var (child, next) := Parse(s, pos, end);
      var (ns, error) := ParseChildren(s, next, end, |rest|);
      assert ([child] + ns)[1..] == ns;
      assert [first] + rest == items;
    }
  }
}
