/** Chains of buffers and the octet stream they hold. */
module Buffers {

  function Flat<T>(bufs: seq<seq<T>>): seq<T> {
    if bufs == [] then [] else Flat(bufs[..|bufs| - 1]) + bufs[|bufs| - 1]
  }

  /** Offset of buffer `b` in the whole stream. */
  function Offset<T>(bufs: seq<seq<T>>, b: nat): nat
    requires b <= |bufs|
  {
    |Flat(bufs[..b])|
  }

  lemma OffsetStep<T>(bufs: seq<seq<T>>, b: nat)
    requires b < |bufs|
    ensures Offset(bufs, b + 1) == Offset(bufs, b) + |bufs[b]|
    ensures Flat(bufs[..b + 1]) == Flat(bufs[..b]) + bufs[b]
  {
    assert bufs[..b + 1][..b] == bufs[..b];
  }

  lemma OffsetEnd<T>(bufs: seq<seq<T>>)
    ensures Offset(bufs, |bufs|) == |Flat(bufs)|
  {
    assert bufs[..|bufs|] == bufs;
  }

  lemma {:induction false} OffsetGrows<T>(bufs: seq<seq<T>>, b: nat, c: nat)
    requires b <= c <= |bufs|
    ensures Offset(bufs, b) <= Offset(bufs, c)
    decreases c
  {
    if b < c {
      OffsetStep(bufs, c - 1);
      OffsetGrows(bufs, b, c - 1);
    }
  }

  /** Empty buffers take no room in the stream. */
  lemma {:induction false} OffsetSkips<T>(bufs: seq<seq<T>>, b: nat, c: nat)
    requires b <= c <= |bufs| && forall k :: b <= k < c ==> bufs[k] == []
    ensures Offset(bufs, b) == Offset(bufs, c)
    decreases c
  {
    if b < c {
      OffsetStep(bufs, c - 1);
      OffsetSkips(bufs, b, c - 1);
    }
  }

  lemma OffsetInside<T>(bufs: seq<seq<T>>, b: nat)
    requires b < |bufs|
    ensures Offset(bufs, b) + |bufs[b]| <= |Flat(bufs)|
  {
    OffsetStep(bufs, b);
    OffsetGrows(bufs, b + 1, |bufs|);
    OffsetEnd(bufs);
  }

  lemma FlatLast<T>(bufs: seq<seq<T>>, last: seq<T>)
    ensures Flat(bufs + [last]) == Flat(bufs) + last
  {
    assert (bufs + [last])[..|bufs|] == bufs;
  }

  lemma {:induction false} FlatConcat<T>(a: seq<seq<T>>, b: seq<seq<T>>)
    ensures Flat(a + b) == Flat(a) + Flat(b)
    decreases |b|
  {
    if b == [] {
      assert a + b == a;
    } else {
      hide Flat;
      var front, last := b[..|b| - 1], b[|b| - 1];
      FlatConcat(a, front);
      FlatLast(a + front, last);
      FlatLast(front, last);
      assert a + b == a + front + [last] && b == front + [last];
    }
  }

  lemma FlatPush<T>(bufs: seq<seq<T>>, buf: seq<T>, b: nat)
    requires b <= |bufs|
    ensures Flat(bufs + [buf]) == Flat(bufs) + buf
    ensures Offset(bufs + [buf], b) == Offset(bufs, b)
  {
    assert (bufs + [buf])[..|bufs|] == bufs;
    assert (bufs + [buf])[..b] == bufs[..b];
  }

  /** A stretch inside one buffer is that stretch of the stream. */
  lemma {:induction false} FlatSlice<T>(bufs: seq<seq<T>>, b: nat, i: nat, j: nat)
    requires b < |bufs| && i <= j <= |bufs[b]|
    ensures Offset(bufs, b) + j <= |Flat(bufs)|
    ensures Flat(bufs)[Offset(bufs, b) + i..Offset(bufs, b) + j] == bufs[b][i..j]
    decreases |bufs|
  {
    var n := |bufs| - 1;
    if b < n {
      FlatSlice(bufs[..n], b, i, j);
      assert bufs[..n][..b] == bufs[..b];
    } else {
      assert bufs[..b] == bufs[..n];
    }
  }

  /** Changing one octet of a buffer changes it in the stream. */
  lemma {:induction false} FlatUpdate<T>(bufs: seq<seq<T>>, b: nat, i: nat, x: T)
    requires b < |bufs| && i < |bufs[b]|
    ensures Offset(bufs, b) + i < |Flat(bufs)|
    ensures Flat(bufs[b := bufs[b][i := x]]) == Flat(bufs)[Offset(bufs, b) + i := x]
    decreases |bufs|
  {
    var n := |bufs| - 1;
    var changed := bufs[b := bufs[b][i := x]];
    if b < n {
      FlatUpdate(bufs[..n], b, i, x);
      assert bufs[..n][..b] == bufs[..b];
      assert changed[..n] == bufs[..n][b := bufs[b][i := x]];
    } else {
      assert changed[..n] == bufs[..n];
      assert bufs[..b] == bufs[..n];
    }
  }

  /** A place in a chain; it may stand at the end of its buffer. */
  datatype Place = Place(buf: nat, off: nat)

  /** The place stands at offset `o` of the stream. */
  ghost predicate StandsAt<T>(bufs: seq<seq<T>>, p: Place, o: nat) {
    p.buf < |bufs| && p.off <= |bufs[p.buf]| && Offset(bufs, p.buf) + p.off == o
  }

  /** The chain has only grown at its end. */
  ghost predicate Extends<T>(before: seq<seq<T>>, after: seq<seq<T>>) {
    && |before| <= |after|
    && (forall b :: 0 <= b < |before| - 1 ==> after[b] == before[b])
    && (before != [] ==> |before[|before| - 1]| <= |after[|before| - 1]|)
  }

  lemma StandsStill<T>(before: seq<seq<T>>, after: seq<seq<T>>, p: Place, o: nat)
    requires Extends(before, after) && StandsAt(before, p, o)
    ensures StandsAt(after, p, o)
  {
    assert before[..p.buf] == after[..p.buf];
  }

  /** Buffers of the same sizes. */
  ghost predicate SameShape<T>(before: seq<seq<T>>, after: seq<seq<T>>) {
    |before| == |after| && forall b :: 0 <= b < |before| ==> |before[b]| == |after[b]|
  }

  lemma {:induction false} SameOffset<T>(before: seq<seq<T>>, after: seq<seq<T>>, b: nat)
    requires SameShape(before, after) && b <= |before|
    ensures Offset(before, b) == Offset(after, b)
    decreases b
  {
    if b > 0 {
      SameOffset(before, after, b - 1);
      OffsetStep(before, b - 1);
      OffsetStep(after, b - 1);
    }
  }

  lemma StandsInShape<T>(before: seq<seq<T>>, after: seq<seq<T>>, p: Place, o: nat)
    requires SameShape(before, after) && StandsAt(before, p, o)
    ensures StandsAt(after, p, o)
  {
    SameOffset(before, after, p.buf);
  }

  /** Part of a sequence replaced by as many other elements. */
  function Patch<T>(s: seq<T>, o: nat, t: seq<T>): (r: seq<T>)
    requires o + |t| <= |s|
    ensures |r| == |s|
  {
    s[..o] + t + s[o + |t|..]
  }
}
