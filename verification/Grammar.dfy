/** The octet sequences that are one value, by the formats of AMQP 1.0 Part 1, sections 1.2 and 1.6; and the decoder accepts
    exactly these. */
module Grammar {
  import opened Basics
  import opened Amqp
  import opened Buffers

  /** The width of the size field of a format; compounds have a count field of the same width. */
  function SizeWidth(tag: Octet): nat {
    match tag / 16
    case 0xA => 1
    case 0xB => 4
    case 0xC => 1
    case 0xD => 4
    case 0xE => 1
    case 0xF => 4
    case _ => 0
  }

  /** The width of a value whose format has no size field. */
  function FixedWidth(tag: Octet): nat {
    if tag < 0x50 then 0
    else if tag < 0x60 then 1
    else if tag < 0x70 then 2
    else if tag < 0x80 then 4
    else if tag < 0x90 then 8
    else 16
  }

  /** The octets behind tag and size. */
  function ContentLength(e: seq<Octet>): int
    requires e != []
  {
    |e| - 1 - SizeWidth(e[0])
  }

  /** A tag, a size where the format has one, and as many octets as that says. */
  predicate IsValue(e: seq<Octet>) {
    && e != [] && e[0] >= 0x40 && 1 + SizeWidth(e[0]) <= |e|
    && ContentLength(e) == if e[0] < 0xA0 then FixedWidth(e[0]) else NumberAt(e, 1, SizeWidth(e[0]))
  }

  predicate IsCompound(e: seq<Octet>) {
    e != [] && e[0] >= 0xC0
  }

  /** The content of a compound begins with a count, which is even for a map. */
  predicate HasCount(e: seq<Octet>) {
    && IsCompound(e) && 1 + 2 * SizeWidth(e[0]) <= |e|
    && (e[0] == 0xC1 || e[0] == 0xD1 ==> CountOf(e) % 2 == 0)
  }

  function CountOf(e: seq<Octet>): nat
    requires IsCompound(e) && 1 + 2 * SizeWidth(e[0]) <= |e|
  {
    NumberAt(e, 1 + SizeWidth(e[0]), SizeWidth(e[0]))
  }

  lemma FlatOne(p: seq<Octet>)
    ensures Flat([p]) == p
  {
    assert [p][..0] == [];
  }

  lemma FlatHead(pieces: seq<seq<Octet>>)
    requires pieces != []
    ensures Flat(pieces) == pieces[0] + Flat(pieces[1..])
  {
    assert [pieces[0]] + pieces[1..] == pieces;
    FlatConcat([pieces[0]], pieces[1..]);
    FlatOne(pieces[0]);
  }

  /** The values stand in the compound, one behind the other; what follows the last is not looked at. */
  predicate Contains(e: seq<Octet>, pieces: seq<seq<Octet>>) {
    HasCount(e) && |pieces| == CountOf(e) && Flat(pieces) <= e[1 + 2 * SizeWidth(e[0])..]
  }

  /** One whole value, with those inside it. */
  ghost predicate WellFormed(e: seq<Octet>)
    decreases |e|, 1
  {
    IsValue(e) && (IsCompound(e) ==> exists pieces :: Contains(e, pieces) && EachWellFormed(pieces, |e|))
  }

  ghost predicate EachWellFormed(pieces: seq<seq<Octet>>, bound: nat)
    decreases bound, 0
  {
    forall i :: 0 <= i < |pieces| ==> |pieces[i]| < bound && WellFormed(pieces[i])
  }

  // ---------------------------------------------------------------- headers

  lemma Widths(tag: Octet)
    ensures SizeLength(tag) == SizeWidth(tag)
    ensures CountLength(tag) == if tag >= 0xC0 then SizeWidth(tag) else 0
    ensures 0x40 <= tag < 0xA0 ==> FixedSize(tag) == FixedWidth(tag)
    ensures SizeWidth(tag) == 0 <==> tag < 0xA0
    ensures tag / 16 < 4 <==> tag < 0x40
  {
  }

  lemma SliceOfSlice(s: seq<Octet>, pos: nat, n: nat, from: nat, a: nat)
    requires from + a <= n && pos + n <= |s|
    ensures s[pos..pos + n][from..from + a] == s[pos + from..pos + from + a]
  {
    var x, y := s[pos..pos + n][from..from + a], s[pos + from..pos + from + a];
    assert forall i :: 0 <= i < a ==> x[i] == s[pos + from + i] == y[i];
  }

  /** Where the items of a value begin, and how many there are. */
  function ItemsAt(e: seq<Octet>): nat
    requires e != []
  {
    if IsCompound(e) then 1 + 2 * SizeWidth(e[0]) else 1 + SizeWidth(e[0])
  }

  function Items(e: seq<Octet>): nat
    requires IsCompound(e) ==> HasCount(e)
  {
    if IsCompound(e) then CountOf(e) else 0
  }

  /** A header is accepted exactly if one value stands there, with a count if it is a compound. */
  lemma HeaderIsValue(s: seq<Octet>, pos: nat, end: nat)
    requires pos <= end <= |s| && ParseHeader(s, pos, end).error == NoError
    ensures var h := ParseHeader(s, pos, end); var e := s[pos..h.next];
      && IsValue(e) && (IsCompound(e) ==> HasCount(e)) && h.count == Items(e) && h.value.at == pos + ItemsAt(e)
  {
    hide Number;
    var h := ParseHeader(s, pos, end);
    var e, a := s[pos..h.next], SizeLength(s[pos]);
    Widths(s[pos]);
    hide SizeLength, CountLength, FixedSize, SizeWidth, FixedWidth;
    assert e[0] == s[pos];
    if a > 0 {
      SliceOfSlice(s, pos, |e|, 1, a);
      if s[pos] >= 0xC0 {
        SliceOfSlice(s, pos, |e|, 1 + a, a);
      }
    }
  }

  lemma ValueHasHeader(s: seq<Octet>, pos: nat, end: nat, e: seq<Octet>)
    requires At(s, pos, end, e) && IsValue(e) && (IsCompound(e) ==> HasCount(e))
    ensures var h := ParseHeader(s, pos, end);
      h.error == NoError && h.next == pos + |e| && h.count == Items(e) && h.value.at == pos + ItemsAt(e)
  {
    hide Number;
    var a := SizeLength(e[0]);
    assert s[pos] == s[pos..pos + |e|][0] == e[0];
    Widths(s[pos]);
    hide SizeLength, CountLength, FixedSize, SizeWidth, FixedWidth;
    if a > 0 {
      SliceOfSlice(s, pos, |e|, 1, a);
      if e[0] >= 0xC0 {
        SliceOfSlice(s, pos, |e|, 1 + a, a);
      }
    }
  }

  // ---------------------------------------------------------------- whole values

  /** What the decoder accepts is well formed, and ends where the decoder says. */
  lemma {:induction false} ParseIsWellFormed(s: seq<Octet>, pos: nat, end: nat)
    requires pos <= end <= |s| && Parse(s, pos, end).0.error == NoError
    ensures WellFormed(s[pos..Parse(s, pos, end).1])
    decreases end - pos, 0
  {
    HeaderIsValue(s, pos, end);
    var h := ParseHeader(s, pos, end);
    var e := s[pos..h.next];
    hide IsValue, HasCount;
    if IsCompound(e) {
      var pieces := ChildrenAreWellFormed(s, h.value.at, h.next, h.count);
      assert s[h.value.at..h.next] == e[ItemsAt(e)..];
      assert Contains(e, pieces);
      WithinBound(pieces, h.next - h.value.at, |e|);
    }
  }

  lemma {:induction false} ChildrenAreWellFormed(s: seq<Octet>, pos: nat, end: nat, count: nat)
    returns (pieces: seq<seq<Octet>>)
    requires pos <= end <= |s| && ParseChildren(s, pos, end, count).1 == NoError
    ensures |pieces| == count && Flat(pieces) <= s[pos..end] && EachWellFormed(pieces, end - pos + 1)
    decreases end - pos, 1
  {
    hide *;
    pieces := [];
    if count == 0 {
      NoPieces(s[pos..end], end - pos + 1);
    } else {
      var next := FirstChild(s, pos, end, count);
      ParseIsWellFormed(s, pos, end);
      var rest := ChildrenAreWellFormed(s, next, end, count - 1);
      pieces := [s[pos..next]] + rest;
      EachCons(s[pos..next], rest, end - next + 1, end - pos + 1);
      FlatCons(s, pos, next, end, rest);
    }
  }

  lemma NoPieces(t: seq<Octet>, bound: nat)
    ensures Flat<Octet>([]) <= t && EachWellFormed([], bound)
  {
  }

  lemma FirstChild(s: seq<Octet>, pos: nat, end: nat, count: nat) returns (next: nat)
    requires pos <= end <= |s| && count > 0 && ParseChildren(s, pos, end, count).1 == NoError
    ensures Parse(s, pos, end).0.error == NoError && next == Parse(s, pos, end).1 && pos < next <= end
    ensures ParseChildren(s, next, end, count - 1).1 == NoError
  {
    hide Parse;
    next := Parse(s, pos, end).1;
  }

  lemma EachCons(p: seq<Octet>, rest: seq<seq<Octet>>, n: nat, bound: nat)
    requires WellFormed(p) && |p| < bound && EachWellFormed(rest, n) && n <= bound
    ensures EachWellFormed([p] + rest, bound)
  {
    hide WellFormed;
  }

  lemma FlatCons(s: seq<Octet>, pos: nat, next: nat, end: nat, rest: seq<seq<Octet>>)
    requires pos <= next <= end <= |s| && Flat(rest) <= s[next..end]
    ensures Flat([s[pos..next]] + rest) <= s[pos..end]
  {
    var pieces := [s[pos..next]] + rest;
    FlatHead(pieces);
    assert pieces[1..] == rest;
    hide Flat;
    assert s[pos..next] + s[next..end] == s[pos..end];
  }

  lemma WithinBound(pieces: seq<seq<Octet>>, n: nat, bound: nat)
    requires EachWellFormed(pieces, n + 1) && n < bound
    ensures EachWellFormed(pieces, bound)
  {
    hide WellFormed;
  }

  /** A well-formed value is accepted wherever it stands, and the decoder ends behind it. */
  lemma {:induction false} WellFormedParses(s: seq<Octet>, pos: nat, end: nat, e: seq<Octet>)
    requires At(s, pos, end, e) && WellFormed(e)
    ensures Parse(s, pos, end).0.error == NoError && Parse(s, pos, end).1 == pos + |e|
    decreases |e|, 1, 0
  {
    if IsCompound(e) {
      var pieces :| Contains(e, pieces) && EachWellFormed(pieces, |e|);
      assert HasCount(e);
      ValueHasHeader(s, pos, end, e);
      hide IsValue, HasCount, EachWellFormed;
      var h := ParseHeader(s, pos, end);
      assert s[h.value.at..h.next] == s[pos..pos + |e|][ItemsAt(e)..] == e[ItemsAt(e)..];
      WellFormedChildren(s, h.value.at, h.next, pieces, |e|);
    } else {
      ValueHasHeader(s, pos, end, e);
    }
  }

  lemma EachTail(pieces: seq<seq<Octet>>, bound: nat)
    requires EachWellFormed(pieces, bound) && pieces != []
    ensures |pieces[0]| < bound && WellFormed(pieces[0]) && EachWellFormed(pieces[1..], bound)
  {
    hide WellFormed;
    assert forall i :: 0 <= i < |pieces[1..]| ==> pieces[1..][i] == pieces[i + 1];
  }

  lemma FrontGone(t: seq<Octet>, p: seq<Octet>, q: seq<Octet>)
    requires p + q <= t
    ensures |p| <= |t| && t[..|p|] == p && q <= t[|p|..]
  {
    assert t[..|p| + |q|] == p + q;
    assert t[|p|..][..|q|] == (p + q)[|p|..] == q;
  }

  lemma ChildrenNone(s: seq<Octet>, pos: nat, end: nat)
    requires pos <= end <= |s|
    ensures ParseChildren(s, pos, end, 0).1 == NoError
  {
  }

  lemma ChildrenOn(s: seq<Octet>, pos: nat, next: nat, end: nat, n: nat)
    requires pos <= next <= end <= |s| && Parse(s, pos, end).0.error == NoError && Parse(s, pos, end).1 == next
    requires ParseChildren(s, next, end, n).1 == NoError
    ensures ParseChildren(s, pos, end, n + 1).1 == NoError
  {
    hide Parse;
  }

  /** The first of the values stands at `pos`, and the others behind it. */
  lemma FirstStands(s: seq<Octet>, pos: nat, end: nat, pieces: seq<seq<Octet>>)
    requires pos <= end <= |s| && Flat(pieces) <= s[pos..end] && pieces != []
    ensures At(s, pos, end, pieces[0]) && pos + |pieces[0]| <= end && Flat(pieces[1..]) <= s[pos + |pieces[0]|..end]
  {
    FlatHead(pieces);
    hide Flat;
    var p := pieces[0];
    FrontGone(s[pos..end], p, Flat(pieces[1..]));
    assert s[pos..pos + |p|] == s[pos..end][..|p|];
    assert s[pos + |p|..end] == s[pos..end][|p|..];
  }

  lemma {:induction false} WellFormedChildren(s: seq<Octet>, pos: nat, end: nat, pieces: seq<seq<Octet>>, bound: nat)
    requires pos <= end <= |s| && Flat(pieces) <= s[pos..end] && EachWellFormed(pieces, bound)
    ensures ParseChildren(s, pos, end, |pieces|).1 == NoError
    decreases bound, 0, |pieces|
  {
    hide *;
    if pieces == [] {
      ChildrenNone(s, pos, end);
    } else {
      FirstStands(s, pos, end, pieces);
      EachTail(pieces, bound);
      var p, rest := pieces[0], pieces[1..];
      WellFormedParses(s, pos, end, p);
      WellFormedChildren(s, pos + |p|, end, rest, bound);
      ChildrenOn(s, pos, pos + |p|, end, |rest|);
    }
  }

  /** The decoder accepts exactly the well-formed values: for every stream and every place in it. */
  lemma ParsesExactly(s: seq<Octet>, pos: nat, end: nat)
    requires pos <= end <= |s|
    ensures Parse(s, pos, end).0.error == NoError <==> exists n :: pos <= n <= end && WellFormed(s[pos..n])
    ensures forall n :: pos <= n <= end && WellFormed(s[pos..n]) ==> Parse(s, pos, end).1 == n
  {
    hide Parse, WellFormed;
    if Parse(s, pos, end).0.error == NoError {
      ParseIsWellFormed(s, pos, end);
    }
    forall n | pos <= n <= end && WellFormed(s[pos..n])
      ensures Parse(s, pos, end).0.error == NoError && Parse(s, pos, end).1 == n
    {
      WellFormedParses(s, pos, end, s[pos..n]);
    }
  }

  /** No value is the front of another: a value cut off anywhere is refused. */
  lemma CutIsRefused(e: seq<Octet>, n: nat)
    requires WellFormed(e) && n < |e|
    ensures Parse(e[..n], 0, n).0.error != NoError
  {
    hide Parse, WellFormed;
    if Parse(e[..n], 0, n).0.error == NoError {
      ParseIsWellFormed(e[..n], 0, n);
      var m := Parse(e[..n], 0, n).1;
      assert e[..n][0..m] == e[0..m];
      assert e[0..|e|] == e;
      WellFormedParses(e, 0, |e|, e);
      WellFormedParses(e, 0, |e|, e[0..m]);
    }
  }

  /** The encoding of every value of the composer is well formed. */
  lemma EncodedIsWellFormed(v: Value)
    requires InRange(v) && |Encode(v)| < TWO_32
    ensures WellFormed(Encode(v)) && IsValue(Encode(v))
  {
    var e := Encode(v);
    hide Encode, Parse, InRange, IsValue;
    assert e[0..|e|] == e;
    DecodeEncode(e, 0, |e|, v);
    ParseIsWellFormed(e, 0, |e|);
  }

  /** A value in a stream ends where the decoder says, if the decoder accepts it. */
  lemma ValueEnds(s: seq<Octet>, pos: nat, e: seq<Octet>)
    requires IsValue(e) && At(s, pos, |s|, e) && Parse(s, pos, |s|).0.error == NoError
    ensures Parse(s, pos, |s|).1 == pos + |e|
  {
    var next := ParseHeader(s, pos, |s|).next;
    assert Parse(s, pos, |s|).1 == next;
    HeaderIsValue(s, pos, |s|);
    hide Parse, ParseHeader;
    SameLength(s, pos, e, s[pos..next]);
  }

  lemma SameLength(s: seq<Octet>, pos: nat, e: seq<Octet>, f: seq<Octet>)
    requires At(s, pos, |s|, e) && At(s, pos, |s|, f) && IsValue(e) && IsValue(f)
    ensures |e| == |f|
  {
    assert f[0] == s[pos..pos + |f|][0] == s[pos] == s[pos..pos + |e|][0] == e[0];
    hide Number, FixedWidth, SizeWidth;
    var a := SizeWidth(e[0]);
    SliceOfSlice(s, pos, |e|, 1, a);
    SliceOfSlice(s, pos, |f|, 1, a);
  }

  // ---------------------------------------------------------------- the shortest form

  /** A value without items. */
  predicate IsPlain(v: Value) {
    !v.List? && !v.Map?
  }

  lemma OctetsBelow(s: seq<Octet>, e: Extent)
    ensures e.len <= 1 ==> Number(Octets(s, e)) < 256
  {
    NumberBelow(Octets(s, e));
    Powers();
    assert Pow256(0) == 1;
  }

  /** The composer uses the shortest form: whatever octets the decoder reads a value without items from, its encoding is
      no longer. */
  lemma EncodeIsShortest(s: seq<Octet>, pos: nat, end: nat)
    requires pos <= end <= |s|
    ensures var (n, next) := Parse(s, pos, end);
      n.error == NoError && Read(s, n).Some? && IsPlain(Read(s, n).value) ==> |Encode(Read(s, n).value)| <= next - pos
  {
    var (n, next) := Parse(s, pos, end);
    if n.error == NoError && Read(s, n).Some? && IsPlain(Read(s, n).value) {
      var h := ParseHeader(s, pos, end);
      HeaderIsValue(s, pos, end);
      assert h.next == next && n.value == h.value && n.tag == h.tag == s[pos];
      assert next - pos == (if n.tag < 0xC0 then 1 + SizeWidth(n.tag) else 1 + 2 * SizeWidth(n.tag)) + n.value.len;
      assert n.tag < 0xA0 ==> n.value.len == FixedWidth(n.tag);
      assert n.tag == 0xA0 || n.tag == 0xA1 || n.tag == 0xA3 ==> n.value.len < 256 by {
        if n.tag / 16 == 0xA {
          var e := s[pos..next];
          OneOctet(e[1]);
          assert e[1..1 + 1] == [e[1]];
        }
      }
      hide Read, Encode, IsValue, ParseHeader, Parse;
      OctetsBelow(s, n.value);
      PlainLength(s, n);
    }
  }

  lemma PlainLength(s: seq<Octet>, n: Node<Extent>)
    requires Read(s, n).Some? && IsPlain(Read(s, n).value) && End(n.value) <= |s|
    requires n.tag < 0xA0 ==> n.value.len == FixedWidth(n.tag)
    requires n.value.len <= 1 ==> Number(Octets(s, n.value)) < 256
    requires n.tag == 0xA0 || n.tag == 0xA1 || n.tag == 0xA3 ==> n.value.len < 256
    ensures |Encode(Read(s, n).value)| <= 1 + SizeWidth(n.tag) + n.value.len
  {
    Powers();
    hide Number, Pow256, ReadAll, EncodeAll;
  }
}
