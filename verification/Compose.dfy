/** Composing AMQP values into a chain of buffers. Sizes and counts of lists and maps are not known
    when they start; they are written over placeholders when they end, wherever in the chain
    the placeholders lie. */
module Compose {
  import opened Basics
  import opened Amqp
  import opened Buffers

  /** A list or map under construction. */
  datatype Composite = Composite(isMap: bool, lengthAt: Place, countAt: Place, length: nat, count: nat)

  /** What has been put in so far, at one level of nesting. */
  datatype Frame = Frame(isMap: bool, items: seq<Value>)

  const ZERO4: seq<Octet> := [0, 0, 0, 0]

  function Tag(isMap: bool): Octet {
    if isMap then 0xD1 else 0xD0
  }

  function Close(f: Frame): Value {
    if f.isMap then Map(f.items) else List(f.items)
  }

  /** The octets of the open levels, outermost first, with the placeholders of those still open. */
  function Render(frames: seq<Frame>): seq<Octet> {
    if frames == [] then []
    else if |frames| == 1 then EncodeAll(frames[0].items)
    else Render(frames[..|frames| - 1]) + Opening(frames[|frames| - 1].isMap) + EncodeAll(frames[|frames| - 1].items)
  }

  function Opening(isMap: bool): (s: seq<Octet>)
    ensures |s| == 9
  {
    [Tag(isMap)] + ZERO4 + ZERO4
  }

  /** One more item at the innermost level. */
  function Add(frames: seq<Frame>, v: Value): seq<Frame>
    requires frames != []
  {
    var n := |frames| - 1;
    frames[n := frames[n].(items := frames[n].items + [v])]
  }

  lemma RenderAdd(frames: seq<Frame>, v: Value)
    requires frames != []
    ensures Render(Add(frames, v)) == Render(frames) + Encode(v)
  {
    var n := |frames| - 1;
    var items := frames[n].items;
    assert (items + [v])[..|items|] == items;
    assert EncodeAll(items + [v]) == EncodeAll(items) + Encode(v);
    assert Add(frames, v)[..n] == frames[..n];
  }

  lemma RenderOpen(frames: seq<Frame>, isMap: bool)
    requires frames != []
    ensures Render(frames + [Frame(isMap, [])]) == Render(frames) + Opening(isMap)
  {
    assert (frames + [Frame(isMap, [])])[..|frames|] == frames;
  }

  lemma Five(r: seq<Octet>, a: seq<Octet>, b: seq<Octet>, c: seq<Octet>, d: seq<Octet>)
    ensures r + (a + b + c) + d == r + a + b + c + d == r + (a + b + c + d)
  {
  }

  lemma RenderTop(frames: seq<Frame>)
    requires |frames| > 1
    ensures var n := |frames| - 1;
      Render(frames) == Render(frames[..n]) + [Tag(frames[n].isMap)] + ZERO4 + ZERO4 + EncodeAll(frames[n].items)
  {
    hide EncodeAll;
    var n := |frames| - 1;
    Five(Render(frames[..n]), [Tag(frames[n].isMap)], ZERO4, ZERO4, EncodeAll(frames[n].items));
  }

  lemma EncodeClose(r: seq<Octet>, f: Frame)
    ensures r + Encode(Close(f)) ==
            r + [Tag(f.isMap)] + Bytes(4 + |EncodeAll(f.items)|, 4) + Bytes(|f.items|, 4) + EncodeAll(f.items)
  {
    hide EncodeAll, Bytes;
    Five(r, [Tag(f.isMap)], Bytes(4 + |EncodeAll(f.items)|, 4), Bytes(|f.items|, 4), EncodeAll(f.items));
  }

  /** Writing size and count over the placeholders of the innermost level closes it. */
  lemma RenderClose(frames: seq<Frame>)
    requires |frames| > 1
    ensures var n := |frames| - 1; var o := |Render(frames[..n])|; var body := EncodeAll(frames[n].items);
      && o + 9 <= |Render(frames)|
      && Patch(Patch(Render(frames), o + 1, Bytes(4 + |body|, 4)), o + 5, Bytes(|frames[n].items|, 4))
           == Render(Add(frames[..n], Close(frames[n])))
  {
    hide Patch, Render, EncodeAll, Bytes, Encode, Add, Close;
    var n := |frames| - 1;
    var r, f := Render(frames[..n]), frames[n];
    var body := EncodeAll(f.items);
    var x, y := Bytes(4 + |body|, 4), Bytes(|f.items|, 4);
    RenderTop(frames);
    RenderAdd(frames[..n], Close(f));
    EncodeClose(r, f);
    PatchFirst(r, Tag(f.isMap), ZERO4, ZERO4, body, x);
    PatchSecond(r, Tag(f.isMap), x, ZERO4, body, y);
  }

  lemma PatchFirst(r: seq<Octet>, tag: Octet, a: seq<Octet>, b: seq<Octet>, body: seq<Octet>, x: seq<Octet>)
    requires |a| == |x|
    ensures |r| + 1 + |x| <= |r + [tag] + a + b + body|
    ensures Patch(r + [tag] + a + b + body, |r| + 1, x) == r + [tag] + x + b + body
  {
    var s := r + [tag] + a + b + body;
    assert s[..|r| + 1] == r + [tag];
    assert s[|r| + 1 + |x|..] == b + body;
    assert r + [tag] + x + (b + body) == r + [tag] + x + b + body;
  }

  lemma PatchSecond(r: seq<Octet>, tag: Octet, a: seq<Octet>, b: seq<Octet>, body: seq<Octet>, y: seq<Octet>)
    requires |b| == |y|
    ensures |r| + 1 + |a| + |y| <= |r + [tag] + a + b + body|
    ensures Patch(r + [tag] + a + b + body, |r| + 1 + |a|, y) == r + [tag] + a + y + body
  {
    var s := r + [tag] + a + b + body;
    assert s[..|r| + 1 + |a|] == r + [tag] + a;
    assert s[|r| + 1 + |a| + |y|..] == body;
  }

  // ---------------------------------------------------------------- the composed field

  /** What a level on the stack records about the frame it builds; `extra` octets follow it. */
  ghost predicate EntryOk(bufs: seq<seq<Octet>>, frames: seq<Frame>, k: nat, c: Composite, extra: nat)
    requires k + 1 < |frames|
  {
    && c.isMap == frames[k + 1].isMap
    && StandsAt(bufs, c.lengthAt, |Render(frames[..k + 1])| + 1)
    && StandsAt(bufs, c.countAt, |Render(frames[..k + 1])| + 5)
    && c.length == 4 + |EncodeAll(frames[k + 1].items)| + extra
    && c.count == |frames[k + 1].items|
  }

  /** The stack, innermost level last: every level but the innermost is followed by an opening. */
  ghost predicate StackOk(bufs: seq<seq<Octet>>, frames: seq<Frame>, stack: seq<Composite>, extra: nat)
    requires |frames| == |stack| + 1
  {
    forall k :: 0 <= k < |stack| ==> EntryOk(bufs, frames, k, stack[k], if k == |stack| - 1 then extra else 9)
  }

  ghost predicate FieldOk(bufs: seq<seq<Octet>>, frames: seq<Frame>, stack: seq<Composite>, extra: seq<Octet>) {
    && |frames| == |stack| + 1
    && Flat(bufs) == Render(frames) + extra
    && StackOk(bufs, frames, stack, |extra|)
  }

  function Bumped(stack: seq<Composite>, octets: nat, items: nat): seq<Composite> {
    if stack == [] then []
    else
      var n := |stack| - 1;
      stack[n := stack[n].(length := stack[n].length + octets, count := stack[n].count + items)]
  }

  lemma InsertKeeps(before: seq<seq<Octet>>, after: seq<seq<Octet>>, frames: seq<Frame>, stack: seq<Composite>,
                    extra: seq<Octet>, data: seq<Octet>)
    requires FieldOk(before, frames, stack, extra) && Extends(before, after) && Flat(after) == Flat(before) + data
    ensures FieldOk(after, frames, Bumped(stack, |data|, 0), extra + data)
  {
    hide Render, EncodeAll, Extends, StandsAt, Flat;
    var t := Bumped(stack, |data|, 0);
    assert Render(frames) + extra + data == Render(frames) + (extra + data);
    forall k | 0 <= k < |t| ensures EntryOk(after, frames, k, t[k], if k == |t| - 1 then |extra + data| else 9) {
      assert EntryOk(before, frames, k, stack[k], if k == |stack| - 1 then |extra| else 9);
      StandsStill(before, after, stack[k].lengthAt, |Render(frames[..k + 1])| + 1);
      StandsStill(before, after, stack[k].countAt, |Render(frames[..k + 1])| + 5);
    }
  }

  lemma ItemKeeps(bufs: seq<seq<Octet>>, frames: seq<Frame>, stack: seq<Composite>, v: Value)
    requires FieldOk(bufs, frames, stack, Encode(v))
    ensures FieldOk(bufs, Add(frames, v), Bumped(stack, 0, 1), [])
  {
    hide Render, Encode, StandsAt, Flat;
    RenderAdd(frames, v);
    var t, g := Bumped(stack, 0, 1), Add(frames, v);
    var n := |frames| - 1;
    assert Render(g) + [] == Render(g);
    assert EncodeAll(g[n].items) == EncodeAll(frames[n].items) + Encode(v) by {
      assert (frames[n].items + [v])[..|frames[n].items|] == frames[n].items;
    }
    forall k | 0 <= k < |t| ensures EntryOk(bufs, g, k, t[k], if k == |t| - 1 then 0 else 9) {
      assert EntryOk(bufs, frames, k, stack[k], if k == |stack| - 1 then |Encode(v)| else 9);
      assert g[..k + 1] == frames[..k + 1];
    }
  }

  lemma OpenKeeps(bufs: seq<seq<Octet>>, frames: seq<Frame>, stack: seq<Composite>, isMap: bool, l: Place, c: Place)
    requires FieldOk(bufs, frames, stack, Opening(isMap))
    requires StandsAt(bufs, l, |Render(frames)| + 1) && StandsAt(bufs, c, |Render(frames)| + 5)
    ensures FieldOk(bufs, frames + [Frame(isMap, [])], stack + [Composite(isMap, l, c, 4, 0)], [])
  {
    hide Render, StandsAt, Flat, Opening;
    RenderOpen(frames, isMap);
    var t, g := stack + [Composite(isMap, l, c, 4, 0)], frames + [Frame(isMap, [])];
    assert Render(g) + [] == Render(g);
    forall k | 0 <= k < |t| ensures EntryOk(bufs, g, k, t[k], if k == |t| - 1 then 0 else 9) {
      assert g[..k + 1] == if k < |stack| then frames[..k + 1] else frames;
      if k < |stack| {
        assert EntryOk(bufs, frames, k, stack[k], 9);
      }
    }
  }

  /** The stack after its innermost level ends: the enclosing one grows by the items, and counts one more. */
  function Popped(stack: seq<Composite>): seq<Composite>
    requires stack != [] && stack[|stack| - 1].length >= 4
  {
    Bumped(stack[..|stack| - 1], stack[|stack| - 1].length - 4, 1)
  }

  lemma CloseKeeps(before: seq<seq<Octet>>, after: seq<seq<Octet>>, frames: seq<Frame>, stack: seq<Composite>)
    requires FieldOk(before, frames, stack, []) && stack != [] && SameShape(before, after)
    requires |Render(frames[..|stack|])| + 9 <= |Flat(before)|
    requires var c := stack[|stack| - 1]; var o := |Render(frames[..|stack|])|;
      Flat(after) == Patch(Patch(Flat(before), o + 1, Bytes(c.length, 4)), o + 5, Bytes(c.count, 4))
    ensures stack[|stack| - 1].length >= 4
    ensures FieldOk(after, Add(frames[..|stack|], Close(frames[|stack|])), Popped(stack), [])
  {
    hide Render, StandsAt, Flat, Patch, Bytes, Encode, EncodeAll, SameShape;
    var n := |stack|;
    var c, f := stack[n - 1], frames[n];
    assert EntryOk(before, frames, n - 1, c, 0);
    assert c.length == 4 + |EncodeAll(f.items)|;
    assert Render(frames) + [] == Render(frames);
    RenderClose(frames);
    var t, g := Popped(stack), Add(frames[..n], Close(f));
    assert Render(g) + [] == Render(g);
    forall k | 0 <= k < |t| ensures EntryOk(after, g, k, t[k], if k == |t| - 1 then 0 else 9) {
      assert EntryOk(before, frames, k, stack[k], 9);
      assert g[..k + 1] == frames[..k + 1];
      StandsInShape(before, after, stack[k].lengthAt, |Render(frames[..k + 1])| + 1);
      StandsInShape(before, after, stack[k].countAt, |Render(frames[..k + 1])| + 5);
      if k == |t| - 1 {
        ClosedItem(frames[n - 1].items, f);
      }
    }
  }

  lemma ClosedItem(items: seq<Value>, f: Frame)
    ensures |EncodeAll(items + [Close(f)])| == |EncodeAll(items)| + 9 + |EncodeAll(f.items)|
  {
    assert (items + [Close(f)])[..|items|] == items;
    assert |Encode(Close(f))| == 9 + |EncodeAll(f.items)|;
  }

  class Composer {
    const capacity: nat
    var bufs: seq<seq<Octet>>
    var stack: seq<Composite>
    ghost var frames: seq<Frame>

    /** Everything composed so far, followed by `extra` octets of an unfinished item. */
    ghost predicate Composed(extra: seq<Octet>)
      reads this
    {
      && capacity > 0
      && (forall b :: 0 <= b < |bufs| ==> |bufs[b]| <= capacity)
      && |frames| == |stack| + 1
      && FieldOk(bufs, frames, stack, extra)
    }

    constructor (capacity: nat)
      requires capacity > 0
      ensures Composed([]) && frames == [Frame(false, [])] && this.capacity == capacity
    {
      this.capacity := capacity;
      bufs := [];
      stack := [];
      frames := [Frame(false, [])];
    }

    /** Copies octets to the end of the chain, filling the last buffer and adding new ones. */
    method Insert(data: seq<Octet>, ghost extra: seq<Octet>)
      requires Composed(extra)
      modifies this
      ensures Composed(extra + data) && frames == old(frames)
      ensures Extends(old(bufs), bufs)
      ensures stack == Bumped(old(stack), |data|, 0)
      ensures data != [] ==> bufs != []
    {
      hide FieldOk, Flat, Extends;
      ghost var before := bufs;
      var i := 0;
      ExtendsItself(before);
      while i < |data|
        invariant i <= |data| && frames == old(frames) && stack == old(stack)
        invariant forall b :: 0 <= b < |bufs| ==> |bufs[b]| <= capacity
        invariant Extends(before, bufs) && Flat(bufs) == Flat(before) + data[..i]
        invariant i > 0 ==> bufs != []
        decreases |data| - i
      {
        if bufs == [] || |bufs[|bufs| - 1]| == capacity {
          BufferAdded(before, bufs);
          bufs := bufs + [[]];
        }
        var last := bufs[|bufs| - 1];
        var n := if capacity - |last| > |data| - i then |data| - i else capacity - |last|;
        ChunkAdded(before, bufs, data, i, n);
        bufs := bufs[|bufs| - 1 := last + data[i..i + n]];
        i := i + n;
      }
      assert data[..|data|] == data;
      InsertKeeps(before, bufs, frames, stack, extra, data);
      stack := Bumped(stack, |data|, 0);
    }

    /** The innermost list or map counts one more item. */
    method BumpCount(ghost v: Value)
      requires Composed(Encode(v))
      modifies this
      ensures Composed([]) && frames == Add(old(frames), v)
    {
      hide FieldOk;
      ItemKeeps(bufs, frames, stack, v);
      stack := Bumped(stack, 0, 1);
      frames := Add(frames, v);
    }

    /** Writes one octet at a place and returns the place behind it; a place at the end of
        a buffer stands for the start of the next one. */
    method Overwrite(p: Place, x: Octet, ghost o: nat) returns (q: Place)
      requires StandsAt(bufs, p, o) && o < |Flat(bufs)|
      modifies this`bufs
      ensures SameShape(old(bufs), bufs) && Flat(bufs) == old(Flat(bufs))[o := x]
      ensures StandsAt(bufs, q, o + 1)
    {
      hide Flat;
      q := p;
      while q.off >= |bufs[q.buf]|
        invariant bufs == old(bufs) && StandsAt(bufs, q, o)
        decreases |bufs| - q.buf
      {
        OffsetStep(bufs, q.buf);
        OffsetEnd(bufs);
        q := Place(q.buf + 1, 0);
      }
      FlatUpdate(bufs, q.buf, q.off, x);
      ghost var before := bufs;
      var buf: seq<Octet> := bufs[q.buf];
      buf := buf[q.off := x];
      bufs := bufs[q.buf := buf];
      SameOffset(before, bufs, q.buf);
      q := q.(off := q.off + 1);
    }

    /** Writes a 32-bit number at a place, across buffers where need be. */
    method Overwrite32(p: Place, value: nat, ghost o: nat)
      requires StandsAt(bufs, p, o) && o + 4 <= |Flat(bufs)|
      modifies this`bufs
      ensures SameShape(old(bufs), bufs) && Flat(bufs) == Patch(old(Flat(bufs)), o, Bytes(value, 4))
    {
      hide Flat, StandsAt, Bytes, SameShape;
      var octets := Bytes(value, 4);
      ghost var before := bufs;
      var q := Overwrite(p, octets[0], o);
      SameLength(before, bufs);
      ghost var b1 := bufs;
      q := Overwrite(q, octets[1], o + 1);
      SameLength(b1, bufs);
      ShapesChain(before, b1, bufs);
      ghost var b2 := bufs;
      q := Overwrite(q, octets[2], o + 2);
      SameLength(b2, bufs);
      ShapesChain(before, b2, bufs);
      ghost var b3 := bufs;
      q := Overwrite(q, octets[3], o + 3);
      ShapesChain(before, b3, bufs);
      PatchFour(Flat(before), o, octets);
    }

    /** The place where the next octet goes. */
    method Mark(ghost extra: seq<Octet>) returns (p: Place)
      requires Composed(extra) && bufs != []
      ensures StandsAt(bufs, p, |Render(frames)| + |extra|)
    {
      p := Place(|bufs| - 1, |bufs[|bufs| - 1]|);
      OffsetStep(bufs, |bufs| - 1);
      OffsetEnd(bufs);
    }

    method StartComposite(isMap: bool)
      requires Composed([])
      modifies this
      ensures Composed([]) && frames == old(frames) + [Frame(isMap, [])]
    {
      hide FieldOk, Render, Flat, Extends, StandsAt;
      Insert([Tag(isMap)], []);
      ghost var b1 := bufs;
      var l := Mark([] + [Tag(isMap)]);
      Insert(ZERO4, [] + [Tag(isMap)]);
      ghost var b2 := bufs;
      var c := Mark([] + [Tag(isMap)] + ZERO4);
      StandsStill(b1, b2, l, |Render(frames)| + 1);
      Insert(ZERO4, [] + [Tag(isMap)] + ZERO4);
      StandsStill(b2, bufs, l, |Render(frames)| + 1);
      StandsStill(b2, bufs, c, |Render(frames)| + 5);
      assert [] + [Tag(isMap)] + ZERO4 + ZERO4 == Opening(isMap);
      OpenKeeps(bufs, frames, stack, isMap, l, c);
      stack := stack + [Composite(isMap, l, c, 4, 0)];
      frames := frames + [Frame(isMap, [])];
    }

    /** Writes size and count into the innermost list or map, and makes it an item of the one around it. */
    method EndComposite()
      requires Composed([]) && stack != []
      modifies this
      ensures Composed([])
      ensures frames == Add(old(frames)[..|old(stack)|], Close(old(frames)[|old(stack)|]))
    {
      hide Render, Flat, StandsAt, SameShape, Patch, Bytes, StackOk, FieldOk;
      var n := |stack|;
      var c := stack[n - 1];
      ghost var o := |Render(frames[..n])|;
      ghost var before := bufs;
      InnermostOk(bufs, frames, stack);
      Overwrite32(c.lengthAt, c.length, o + 1);
      ghost var between := bufs;
      StandsInShape(before, between, c.countAt, o + 5);
      Overwrite32(c.countAt, c.count, o + 5);
      ShapesChain(before, between, bufs);
      CloseKeeps(before, bufs, frames, stack);
      SameSizes(before, bufs, capacity);
      stack := Popped(stack);
      frames := Add(frames[..n], Close(frames[n]));
    }

    method InsertNull()
      requires Composed([])
      modifies this
      ensures Composed([]) && frames == Add(old(frames), Null)
    {
      hide FieldOk, Flat, Extends;
      Insert([0x40], []);
      assert [] + [0x40] == Encode(Null);
      BumpCount(Null);
    }

    method InsertEmptyList()
      requires Composed([])
      modifies this
      ensures Composed([]) && frames == Add(old(frames), List0)
    {
      hide FieldOk, Flat, Extends;
      Insert([0x45], []);
      assert [] + [0x45] == Encode(List0);
      BumpCount(List0);
    }

    method InsertBool(b: bool)
      requires Composed([])
      modifies this
      ensures Composed([]) && frames == Add(old(frames), Bool(b))
    {
      hide FieldOk, Flat, Extends;
      Insert([if b then 0x41 else 0x42], []);
      assert [] + [if b then 0x41 else 0x42] == Encode(Bool(b));
      BumpCount(Bool(b));
    }

    /** A tag, then the octets behind it. */
    method InsertTagged(tag: Octet, octets: seq<Octet>, ghost v: Value)
      requires Composed([]) && Encode(v) == [tag] + octets
      modifies this
      ensures Composed([]) && frames == Add(old(frames), v)
    {
      hide FieldOk, Flat, Extends, Encode;
      Insert([tag], []);
      Insert(octets, [] + [tag]);
      assert [] + [tag] + octets == Encode(v);
      BumpCount(v);
    }

    method InsertUInt(n: nat)
      requires Composed([])
      modifies this
      ensures Composed([]) && frames == Add(old(frames), UInt(n))
    {
      hide FieldOk, Flat, Extends, Bytes;
      if n == 0 {
        InsertTagged(0x43, [], UInt(n));
      } else if n < 256 {
        InsertTagged(0x52, [n], UInt(n));
      } else {
        InsertTagged(0x70, Bytes(n, 4), UInt(n));
      }
    }

    method InsertULong(n: nat)
      requires Composed([])
      modifies this
      ensures Composed([]) && frames == Add(old(frames), ULong(n))
    {
      hide FieldOk, Flat, Extends, Bytes;
      if n == 0 {
        InsertTagged(0x44, [], ULong(n));
      } else if n < 256 {
        InsertTagged(0x53, [n], ULong(n));
      } else {
        InsertTagged(0x80, Bytes(n, 8), ULong(n));
      }
    }

    method InsertInt(i: int)
      requires Composed([])
      modifies this
      ensures Composed([]) && frames == Add(old(frames), Int(i))
    {
      hide FieldOk, Flat, Extends, Bytes;
      if -128 <= i <= 127 {
        InsertTagged(0x54, [i % 256], Int(i));
      } else {
        InsertTagged(0x71, Bytes(i % TWO_32, 4), Int(i));
      }
    }

    method InsertLong(i: int)
      requires Composed([])
      modifies this
      ensures Composed([]) && frames == Add(old(frames), Long(i))
    {
      hide FieldOk, Flat, Extends, Bytes;
      if -128 <= i <= 127 {
        InsertTagged(0x55, [i % 256], Long(i));
      } else {
        InsertTagged(0x81, Bytes(i % TWO_64, 8), Long(i));
      }
    }

    /** Binary, string or symbol: the short form below 256 octets, the long form from there. */
    method InsertSized(tag8: Octet, tag32: Octet, octets: seq<Octet>, ghost v: Value)
      requires Composed([]) && Encode(v) == Sized(tag8, tag32, octets)
      modifies this
      ensures Composed([]) && frames == Add(old(frames), v)
    {
      hide FieldOk, Flat, Extends, Bytes, Encode;
      if |octets| < 256 {
        Insert([tag8], []);
        Insert([|octets|], [] + [tag8]);
        Insert(octets, [] + [tag8] + [|octets|]);
        assert [] + [tag8] + [|octets|] + octets == Sized(tag8, tag32, octets);
      } else {
        Insert([tag32], []);
        Insert(Bytes(|octets|, 4), [] + [tag32]);
        Insert(octets, [] + [tag32] + Bytes(|octets|, 4));
        assert [] + [tag32] + Bytes(|octets|, 4) + octets == Sized(tag8, tag32, octets);
      }
      BumpCount(v);
    }

    /** Composes a whole value: whatever the capacity of the buffers, the chain grows by
        its encoding. */
    method ComposeValue(v: Value)
      requires Composed([])
      modifies this
      ensures Composed([]) && frames == Add(old(frames), v)
      decreases v
    {
      hide FieldOk, Flat, Extends, Bytes, EncodeAll;
      match v
      case Null => InsertNull();
      case List0 => InsertEmptyList();
      case Bool(b) => InsertBool(b);
      case UInt(n) => InsertUInt(n);
      case ULong(n) => InsertULong(n);
      case Int(i) => InsertInt(i);
      case Long(i) => InsertLong(i);
      case Binary(octets) => InsertSized(0xA0, 0xB0, octets, v);
      case Str(octets) => InsertSized(0xA1, 0xB1, octets, v);
      case Symbol(octets) => InsertSized(0xA3, 0xB3, octets, v);
      case List(items) => ComposeItems(false, items);
      case Map(items) => ComposeItems(true, items);
    }

    method ComposeItems(isMap: bool, items: seq<Value>)
      requires Composed([])
      modifies this
      ensures Composed([]) && frames == Add(old(frames), Close(Frame(isMap, items)))
      decreases items
    {
      hide Flat;
      StartComposite(isMap);
      var i := 0;
      ghost var outer := old(frames);
      while i < |items|
        invariant i <= |items|
        invariant Composed([]) && frames == outer + [Frame(isMap, items[..i])]
      {
        ComposeValue(items[i]);
        assert items[..i + 1] == items[..i] + [items[i]];
        assert Add(outer + [Frame(isMap, items[..i])], items[i]) == outer + [Frame(isMap, items[..i + 1])];
        i := i + 1;
      }
      assert items[..|items|] == items;
      assert (outer + [Frame(isMap, items)])[..|outer|] == outer;
      EndComposite();
    }
  }

  lemma SameLength(before: seq<seq<Octet>>, after: seq<seq<Octet>>)
    requires SameShape(before, after)
    ensures |Flat(before)| == |Flat(after)|
  {
    SameOffset(before, after, |before|);
    OffsetEnd(before);
    OffsetEnd(after);
  }

  lemma ShapesChain(a: seq<seq<Octet>>, b: seq<seq<Octet>>, c: seq<seq<Octet>>)
    requires SameShape(a, b) && SameShape(b, c)
    ensures SameShape(a, c)
  {
  }

  lemma SameSizes(before: seq<seq<Octet>>, after: seq<seq<Octet>>, capacity: nat)
    requires SameShape(before, after) && forall b :: 0 <= b < |before| ==> |before[b]| <= capacity
    ensures forall b :: 0 <= b < |after| ==> |after[b]| <= capacity
  {
  }

  lemma PatchFour(s: seq<Octet>, o: nat, t: seq<Octet>)
    requires |t| == 4 && o + 4 <= |s|
    ensures s[o := t[0]][o + 1 := t[1]][o + 2 := t[2]][o + 3 := t[3]] == Patch(s, o, t)
  {
  }

  lemma InnermostOk(bufs: seq<seq<Octet>>, frames: seq<Frame>, stack: seq<Composite>)
    requires FieldOk(bufs, frames, stack, []) && stack != []
    ensures var c := stack[|stack| - 1]; var o := |Render(frames[..|stack|])|;
      && StandsAt(bufs, c.lengthAt, o + 1) && StandsAt(bufs, c.countAt, o + 5)
      && o + 9 <= |Flat(bufs)|
  {
    assert EntryOk(bufs, frames, |stack| - 1, stack[|stack| - 1], 0);
    RenderClose(frames);
  }

  lemma ExtendsItself(bufs: seq<seq<Octet>>)
    ensures Extends(bufs, bufs) && Flat(bufs) == Flat(bufs) + []
  {
  }

  lemma BufferAdded(before: seq<seq<Octet>>, bufs: seq<seq<Octet>>)
    requires Extends(before, bufs)
    ensures Extends(before, bufs + [[]]) && Flat(bufs + [[]]) == Flat(bufs)
  {
    FlatPush(bufs, [], 0);
  }

  lemma ChunkAdded(before: seq<seq<Octet>>, bufs: seq<seq<Octet>>, data: seq<Octet>, i: nat, n: nat)
    requires bufs != [] && Extends(before, bufs) && i + n <= |data| && Flat(bufs) == Flat(before) + data[..i]
    ensures var after := bufs[|bufs| - 1 := bufs[|bufs| - 1] + data[i..i + n]];
      Extends(before, after) && Flat(after) == Flat(before) + data[..i + n]
  {
    FlatAppend(bufs, data[i..i + n]);
    assert data[..i + n] == data[..i] + data[i..i + n];
  }

  lemma FlatAppend(bufs: seq<seq<Octet>>, data: seq<Octet>)
    requires bufs != []
    ensures Flat(bufs[|bufs| - 1 := bufs[|bufs| - 1] + data]) == Flat(bufs) + data
  {
    var n := |bufs| - 1;
    var changed := bufs[n := bufs[n] + data];
    assert changed[..n] == bufs[..n];
    assert Flat(bufs[..n]) + bufs[n] + data == Flat(bufs[..n]) + (bufs[n] + data);
  }
}
