/** A cursor over part of a buffer chain, and the operations that move it. */
module BufferField {
  import opened Basics
  import opened Amqp
  import opened Buffers

  type Chain = seq<seq<Octet>>

  datatype Field = Field(buf: nat, cursor: nat, remaining: nat)

  /** The field begins at offset `pos` of the stream; unless it is empty, its cursor is on an octet. */
  ghost predicate Begins(bufs: Chain, f: Field, pos: nat) {
    && StandsAt(bufs, Place(f.buf, f.cursor), pos)
    && pos + f.remaining <= |Flat(bufs)|
    && (f.remaining > 0 ==> f.cursor < |bufs[f.buf]|)
  }

  /** Where the field lies in the stream. */
  function ExtentOf(bufs: Chain, f: Field): Extent {
    Extent(if f.buf <= |bufs| then Offset(bufs, f.buf) + f.cursor else 0, f.remaining)
  }

  lemma NextBuffer(bufs: Chain, f: Field, pos: nat)
    requires StandsAt(bufs, Place(f.buf, f.cursor), pos) && f.cursor == |bufs[f.buf]| && pos < |Flat(bufs)|
    ensures StandsAt(bufs, Place(f.buf + 1, 0), pos)
  {
    OffsetStep(bufs, f.buf);
    OffsetEnd(bufs);
  }

  /** Moves the cursor off the end of a buffer, onto the next octet. */
  method Normalize(bufs: Chain, f: Field, ghost pos: nat) returns (g: Field)
    requires StandsAt(bufs, Place(f.buf, f.cursor), pos) && pos + f.remaining <= |Flat(bufs)|
    ensures Begins(bufs, g, pos) && g.remaining == f.remaining
  {
    hide Flat;
    g := f;
    if f.remaining > 0 {
      while g.cursor == |bufs[g.buf]|
        invariant StandsAt(bufs, Place(g.buf, g.cursor), pos) && g.remaining == f.remaining
        decreases |bufs| - g.buf
      {
        NextBuffer(bufs, g, pos);
        g := Field(g.buf + 1, 0, g.remaining);
      }
    }
  }

  lemma InBuffer(bufs: Chain, f: Field, pos: nat, n: nat)
    requires Begins(bufs, f, pos) && n <= |bufs[f.buf]| - f.cursor
    ensures pos + n <= |Flat(bufs)| && Flat(bufs)[pos..pos + n] == bufs[f.buf][f.cursor..f.cursor + n]
    ensures StandsAt(bufs, Place(f.buf, f.cursor + n), pos + n)
  {
    FlatSlice(bufs, f.buf, f.cursor, f.cursor + n);
  }

  /** Copies up to `n` octets and moves past them. */
  method Copy(bufs: Chain, f: Field, n: nat, ghost pos: nat) returns (data: seq<Octet>, g: Field)
    requires Begins(bufs, f, pos)
    ensures |data| == Min(n, f.remaining) && data == Flat(bufs)[pos..pos + |data|]
    ensures Begins(bufs, g, pos + |data|) && g.remaining == f.remaining - |data|
  {
    hide Flat, StandsAt;
    g := f;
    data := [];
    var count := Min(n, f.remaining);
    ghost var at: nat := pos;
    assert Flat(bufs)[pos..pos] == [];
    while count > 0
      invariant Begins(bufs, g, at) && at == pos + |data| && |data| + count == Min(n, f.remaining)
      invariant g.remaining == f.remaining - |data| && data == Flat(bufs)[pos..at]
      decreases count
    {
      var avail := Available(bufs, g, at);
      var k := if count < avail then count else avail;
      InBuffer(bufs, g, at, k);
      Glue(Flat(bufs), pos, at, at + k);
      data := data + bufs[g.buf][g.cursor..g.cursor + k];
      g := g.(cursor := g.cursor + k, remaining := g.remaining - k);
      at := at + k;
      count := count - k;
      if k == avail {
        g := Normalize(bufs, g, at);
      } else {
        StillInside(bufs, g, at);
      }
    }
  }

  lemma Glue(s: seq<Octet>, a: nat, b: nat, c: nat)
    requires a <= b <= c <= |s|
    ensures s[a..c] == s[a..b] + s[b..c]
  {
  }

  lemma StillInside(bufs: Chain, f: Field, pos: nat)
    requires StandsAt(bufs, Place(f.buf, f.cursor), pos) && f.buf < |bufs| && f.cursor < |bufs[f.buf]|
    requires pos + f.remaining <= |Flat(bufs)|
    ensures Begins(bufs, f, pos)
  {
  }

  /** The octets left in the cursor's buffer. */
  function Available(bufs: Chain, f: Field, ghost pos: nat): (n: nat)
    requires Begins(bufs, f, pos) && f.remaining > 0
    ensures n > 0 && f.buf < |bufs| && f.cursor + n == |bufs[f.buf]|
  {
    |bufs[f.buf]| - f.cursor
  }

  /** Moves past up to `n` octets; says how many. */
  method Advance(bufs: Chain, f: Field, n: nat, ghost pos: nat) returns (moved: nat, g: Field)
    requires Begins(bufs, f, pos)
    ensures moved == Min(n, f.remaining)
    ensures Begins(bufs, g, pos + moved) && g.remaining == f.remaining - moved
  {
    hide Flat, StandsAt;
    g := f;
    var count := Min(n, f.remaining);
    ghost var at: nat := pos;
    while count > 0
      invariant Begins(bufs, g, at) && at + count == pos + Min(n, f.remaining)
      invariant g.remaining == f.remaining - (at - pos)
      decreases count
    {
      var avail := Available(bufs, g, at);
      var k := if count < avail then count else avail;
      InBuffer(bufs, g, at, k);
      g := g.(cursor := g.cursor + k, remaining := g.remaining - k);
      at := at + k;
      count := count - k;
      if k == avail {
        g := Normalize(bufs, g, at);
      } else {
        StillInside(bufs, g, at);
      }
    }
    moved := f.remaining - g.remaining;
  }

  /** The next octet, if there is one. */
  method NextOctet(bufs: Chain, f: Field, ghost pos: nat) returns (ok: bool, x: Octet, g: Field)
    requires Begins(bufs, f, pos)
    ensures ok <==> f.remaining > 0
    ensures ok ==> x == Flat(bufs)[pos] && Begins(bufs, g, pos + 1) && g.remaining == f.remaining - 1
    ensures !ok ==> g == f
  {
    hide Flat, StandsAt;
    if f.remaining > 0 {
      var avail := Available(bufs, f, pos);
      x := bufs[f.buf][f.cursor];
      InBuffer(bufs, f, pos, 1);
      assert x == bufs[f.buf][f.cursor..f.cursor + 1][0] == Flat(bufs)[pos..pos + 1][0];
      g := Normalize(bufs, f.(cursor := f.cursor + 1, remaining := f.remaining - 1), pos + 1);
      ok := true;
    } else {
      ok, x, g := false, 0, f;
    }
  }

  /** The next four octets as a number, if there are four. */
  method NextUInt32(bufs: Chain, f: Field, ghost pos: nat) returns (ok: bool, value: nat, g: Field)
    requires Begins(bufs, f, pos)
    ensures ok <==> f.remaining >= 4
    ensures ok ==> value == NumberAt(Flat(bufs), pos, 4) && Begins(bufs, g, pos + 4) && g.remaining == f.remaining - 4
    ensures !ok ==> g == f
  {
    hide Flat, StandsAt, Number;
    if f.remaining >= 4 {
      var data;
      data, g := Copy(bufs, f, 4, pos);
      value := Decode32(data[0], data[1], data[2], data[3]);
      FourOctets(data);
      ok := true;
    } else {
      ok, value, g := false, 0, f;
    }
  }

  function Decode32(a: nat, b: nat, c: nat, d: nat): nat {
    a * 0x100_0000 + b * 0x1_0000 + c * 0x100 + d
  }

  lemma FourOctets(s: seq<Octet>)
    requires |s| == 4
    ensures Number(s) == Decode32(s[0], s[1], s[2], s[3])
  {
    assert s[..3][..2] == s[..2] && s[..2][..1] == s[..1] && s[..1][..0] == [];
    var a: int, b: int, c: int := s[0], s[1], s[2];
    assert Number(s[..1]) == a;
    assert Number(s[..2]) == 0x100 * a + b;
    assert Number(s[..3]) == 0x1_0000 * a + 0x100 * b + c;
  }

  /** Whether the field starts with `data`; only then the cursor moves. */
  method Equal(bufs: Chain, f: Field, data: seq<Octet>, ghost pos: nat) returns (equal: bool, g: Field)
    requires Begins(bufs, f, pos)
    ensures equal <==> |data| <= f.remaining && data == Flat(bufs)[pos..pos + |data|]
    ensures equal ==> Begins(bufs, g, pos + |data|) && g.remaining == f.remaining - |data|
    ensures !equal ==> g == f
  {
    hide Flat, StandsAt;
    if f.remaining < |data| {
      return false, f;
    }
    g := f;
    var i := 0;
    while i < |data|
      invariant i <= |data| && Begins(bufs, g, pos + i) && g.remaining == f.remaining - i
      invariant data[..i] == Flat(bufs)[pos..pos + i]
      decreases |data| - i
    {
      var avail := Available(bufs, g, pos + i);
      var k := if |data| - i < avail then |data| - i else avail;
      InBuffer(bufs, g, pos + i, k);
      Glue(Flat(bufs), pos, pos + i, pos + i + k);
      assert data[..i + k] == data[..i] + data[i..i + k];
      if data[i..i + k] != bufs[g.buf][g.cursor..g.cursor + k] {
        Differ(data, Flat(bufs), pos, i, k);
        return false, f;
      }
      g := g.(cursor := g.cursor + k, remaining := g.remaining - k);
      i := i + k;
      if k == avail {
        g := Normalize(bufs, g, pos + i);
      } else {
        StillInside(bufs, g, pos + i);
      }
    }
    assert data[..|data|] == data;
    equal := true;
  }

  lemma Differ(data: seq<Octet>, s: seq<Octet>, pos: nat, i: nat, k: nat)
    requires i + k <= |data| && pos + |data| <= |s|
    ensures data[i..i + k] != s[pos + i..pos + i + k] ==> data != s[pos..pos + |data|]
  {
    var t := s[pos..pos + |data|];
    assert forall j :: i <= j < i + k ==> t[j] == s[pos + j];
    assert t[i..i + k] == s[pos + i..pos + i + k];
  }
}
