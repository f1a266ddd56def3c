/** The section check on a chain of buffers, octet by octet, shown to be that of the stream. */
module SectionScan {
  import opened Basics
  import opened Amqp
  import opened Buffers
  import opened Sections

  type Chain = seq<seq<Octet>>

  /** Buffers in a chain hold at least one octet each. */
  ghost predicate NoneEmpty(bufs: Chain) {
    forall b :: 0 <= b < |bufs| ==> bufs[b] != []
  }

  lemma {:induction false} AtBufferEnd(bufs: Chain, p: Place, o: nat)
    requires StandsAt(bufs, p, o) && p.off == |bufs[p.buf]|
    ensures p.buf + 1 < |bufs| ==> StandsAt(bufs, Place(p.buf + 1, 0), o)
    ensures p.buf + 1 == |bufs| ==> o == |Flat(bufs)|
  {
    OffsetStep(bufs, p.buf);
    OffsetEnd(bufs);
  }

  lemma {:induction false} OnOctet(bufs: Chain, p: Place, o: nat)
    requires StandsAt(bufs, p, o) && p.off < |bufs[p.buf]|
    ensures o < |Flat(bufs)| && Flat(bufs)[o] == bufs[p.buf][p.off]
    ensures StandsAt(bufs, Place(p.buf, p.off + 1), o + 1)
  {
    FlatSlice(bufs, p.buf, p.off, p.off + 1);
    assert bufs[p.buf][p.off] == bufs[p.buf][p.off..p.off + 1][0] == Flat(bufs)[o..o + 1][0];
  }

  /** Whether an octet can be consumed; a place at the end of a buffer moves to the next. */
  method CanAdvance(bufs: Chain, p: Place, ghost o: nat) returns (can: bool, q: Place)
    requires StandsAt(bufs, p, o) && NoneEmpty(bufs)
    ensures StandsAt(bufs, q, o) && (can <==> o < |Flat(bufs)|)
    ensures can ==> q.buf < |bufs| && q.off < |bufs[q.buf]| && Flat(bufs)[o] == bufs[q.buf][q.off]
  {
    hide Flat, Offset;
    q := p;
    if q.off >= |bufs[q.buf]| {
      AtBufferEnd(bufs, q, o);
      if q.buf + 1 < |bufs| {
        q := Place(q.buf + 1, 0);
      }
    }
    can := q.off < |bufs[q.buf]|;
    if can {
      OnOctet(bufs, q, o);
    }
  }

  lemma {:induction false} Inside(bufs: Chain, p: Place, o: nat, n: nat)
    requires StandsAt(bufs, p, o) && n <= |bufs[p.buf]| - p.off
    ensures StandsAt(bufs, Place(p.buf, p.off + n), o + n) && o + n <= |Flat(bufs)|
  {
    OffsetInside(bufs, p.buf);
  }

  /** Moves `n` octets on, if there is an octet to consume and all of them are there. */
  method Advance(bufs: Chain, p: Place, n: int, ghost o: nat) returns (ok: bool, q: Place)
    requires StandsAt(bufs, p, o) && NoneEmpty(bufs)
    ensures ok <==> o < |Flat(bufs)| && o + n <= |Flat(bufs)|
    ensures ok ==> StandsAt(bufs, q, if n > 0 then o + n else o)
  {
    hide Flat, Offset;
    var can;
    can, q := CanAdvance(bufs, p, o);
    if !can {
      return false, q;
    }
    var consume := n;
    ghost var at: nat := o;
    while consume > 0
      invariant StandsAt(bufs, q, at) && at + consume == (if n > 0 then o + n else at + consume)
      invariant n <= 0 ==> at == o && consume == n
      invariant n > 0 ==> consume >= 0
      decreases if consume > 0 then consume else 0, |bufs| - q.buf
    {
      var remaining := |bufs[q.buf]| - q.off;
      Inside(bufs, q, at, if consume <= remaining then consume else remaining);
      if consume <= remaining {
        q := Place(q.buf, q.off + consume);
        at := at + consume;
        consume := 0;
      } else {
        AtBufferEnd(bufs, Place(q.buf, q.off + remaining), at + remaining);
        if q.buf + 1 == |bufs| {
          return false, q;
        }
        consume := consume - remaining;
        at := at + remaining;
        q := Place(q.buf + 1, 0);
      }
    }
    ok := true;
    Inside(bufs, q, at, 0);
  }

  method NextOctet(bufs: Chain, p: Place, ghost o: nat) returns (ok: bool, x: Octet, q: Place)
    requires StandsAt(bufs, p, o) && NoneEmpty(bufs)
    ensures ok <==> o < |Flat(bufs)|
    ensures ok ==> x == Flat(bufs)[o] && StandsAt(bufs, q, o + 1)
  {
    hide Flat, StandsAt, NoneEmpty;
    x := 0;
    ok, q := CanAdvance(bufs, p, o);
    if ok {
      x := bufs[q.buf][q.off];
      ok, q := Advance(bufs, q, 1, o);
    }
  }

  datatype Status = IsInvalid | IsMatch | IsNoMatch | IsNeedMore

  predicate Says(st: Status, c: Check) {
    match c
    case Invalid => st == IsInvalid
    case NoMatch => st == IsNoMatch
    case NeedMore => st == IsNeedMore
    case Match(_, _) => st == IsMatch
  }

  lemma {:induction false} MatchStep(s: seq<Octet>, p: nat, pattern: seq<Octet>, i: nat)
    requires i < |pattern| && p + i < |s|
    ensures s[p + i] != pattern[i] ==> MatchFrom(s, p, pattern, i) == NoMatch
    ensures s[p + i] == pattern[i] && p + i + 1 == |s| ==> MatchFrom(s, p, pattern, i) == NeedMore
    ensures s[p + i] == pattern[i] && p + i + 1 < |s| ==> MatchFrom(s, p, pattern, i) == MatchFrom(s, p, pattern, i + 1)
  {
  }

  /** Compares the descriptor across buffers; on a match the place is that of the type tag. */
  method MatchPattern(bufs: Chain, p: Place, pattern: seq<Octet>, ghost o: nat) returns (st: Status, q: Place)
    requires StandsAt(bufs, p, o) && NoneEmpty(bufs) && p.off < |bufs[p.buf]| && o < |Flat(bufs)|
    ensures Says(st, MatchFrom(Flat(bufs), o, pattern, 0))
    ensures st == IsMatch ==> StandsAt(bufs, q, o + |pattern|) && q.off < |bufs[q.buf]|
  {
    hide Flat, Offset, MatchFrom;
    q := p;
    var i := 0;
    OnOctet(bufs, q, o);
    while i < |pattern| && bufs[q.buf][q.off] == pattern[i]
      invariant i <= |pattern| && StandsAt(bufs, q, o + i) && q.off < |bufs[q.buf]|
      invariant o + i < |Flat(bufs)| && Flat(bufs)[o + i] == bufs[q.buf][q.off]
      invariant MatchFrom(Flat(bufs), o, pattern, 0) == MatchFrom(Flat(bufs), o, pattern, i)
    {
      MatchStep(Flat(bufs), o, pattern, i);
      OnOctet(bufs, q, o + i);
      q := Place(q.buf, q.off + 1);
      i := i + 1;
      if q.off == |bufs[q.buf]| {
        AtBufferEnd(bufs, q, o + i);
        if q.buf + 1 == |bufs| {
          return IsNeedMore, q;
        }
        q := Place(q.buf + 1, 0);
      }
      OnOctet(bufs, q, o + i);
    }
    if i < |pattern| {
      MatchStep(Flat(bufs), o, pattern, i);
      st := IsNoMatch;
    } else {
      MatchEnds(Flat(bufs), o, pattern);
      st := IsMatch;
    }
  }

  lemma {:induction false} MatchEnds(s: seq<Octet>, p: nat, pattern: seq<Octet>)
    requires p + |pattern| < |s|
    ensures MatchFrom(s, p, pattern, |pattern|) == Match(Location(p, 0, |pattern|, s[p + |pattern|]), p + |pattern|)
  {
  }

  lemma {:induction false} MatchedTag(s: seq<Octet>, p: nat, pattern: seq<Octet>, i: nat)
    requires i <= |pattern| && p + i < |s| && MatchFrom(s, p, pattern, i).Match?
    ensures p + |pattern| < |s| && MatchFrom(s, p, pattern, i).location.tag == s[p + |pattern|]
    decreases |pattern| - i
  {
    if i < |pattern| {
      MatchedTag(s, p, pattern, i + 1);
    }
  }

  /** Reads a size of one or four octets. */
  method ReadSize(bufs: Chain, p: Place, width: nat, ghost o: nat) returns (ok: bool, size: nat, q: Place)
    requires StandsAt(bufs, p, o) && NoneEmpty(bufs)
    ensures ok <==> o + width <= |Flat(bufs)|
    ensures ok ==> size == NumberAt(Flat(bufs), o, width) && StandsAt(bufs, q, o + width)
  {
    hide Flat, StandsAt, NoneEmpty, Number;
    q := p;
    size := 0;
    StandsInside(bufs, p, o);
    NumberEmpty(Flat(bufs), o);
    var i := 0;
    while i < width
      invariant i <= width && o + i <= |Flat(bufs)| && StandsAt(bufs, q, o + i)
      invariant size == NumberAt(Flat(bufs), o, i)
    {
      var x;
      ok, x, q := NextOctet(bufs, q, o + i);
      if !ok {
        return;
      }
      NumberSnoc(Flat(bufs), o, i);
      var low: int := x;
      size := 256 * size + low;
      i := i + 1;
    }
    ok := true;
  }

  lemma {:induction false} StandsInside(bufs: Chain, p: Place, o: nat)
    requires StandsAt(bufs, p, o)
    ensures o <= |Flat(bufs)|
  {
    OffsetInside(bufs, p.buf);
  }

  lemma {:induction false} NumberEmpty(s: seq<Octet>, at: nat)
    requires at <= |s|
    ensures NumberAt(s, at, 0) == 0
  {
  }

  lemma {:induction false} NumberSnoc(s: seq<Octet>, at: nat, n: nat)
    requires at + n < |s|
    ensures NumberAt(s, at, n + 1) == 256 * NumberAt(s, at, n) + s[at + n]
  {
    assert s[at..at + n + 1][..n] == s[at..at + n];
  }

  function Signed32(size: nat): int {
    if size < 0x8000_0000 then size else size - TWO_32
  }

  /** The cases of the section check once the descriptor has matched. */
  lemma {:induction false} AfterMatch(s: seq<Octet>, p: nat, pattern: seq<Octet>, tags: seq<Octet>, seen: bool)
    requires p < |s| && MatchFrom(s, p, pattern, 0).Match?
    ensures p + |pattern| < |s|
    ensures var c := SectionCheck(s, p, pattern, tags, seen);
      var tag := s[p + |pattern|]; var q := p + |pattern| + 1; var width := SizeLength(tag);
      && (tag !in tags || seen ==> c == Invalid)
      && (tag in tags && !seen && q >= |s| && tag / 16 != 4 ==> c == NeedMore)
      && (tag in tags && !seen && (q < |s| || tag / 16 == 4) && width == 0 ==>
            c == WholeSection(s, p, |pattern|, tag, 1, FixedSize(tag), q))
      && (tag in tags && !seen && q < |s| && width > 0 && q + width > |s| ==> c == NeedMore)
      && (tag in tags && !seen && q < |s| && width > 0 && q + width <= |s| ==>
            c == WholeSection(s, p, |pattern|, tag, 1 + width, NumberAt(s, q, width), q + width))
  {
    MatchedTag(s, p, pattern, 0);
    hide MatchFrom, NumberAt, WholeSection;
  }

  lemma {:induction false} BeforeMatch(s: seq<Octet>, p: nat, pattern: seq<Octet>, tags: seq<Octet>, seen: bool)
    ensures p >= |s| ==> SectionCheck(s, p, pattern, tags, seen) == NeedMore
    ensures p < |s| && !MatchFrom(s, p, pattern, 0).Match? ==>
      SectionCheck(s, p, pattern, tags, seen) == MatchFrom(s, p, pattern, 0)
  {
    hide MatchFrom, NumberAt, WholeSection;
  }

  method IsExpected(tag: Octet, tags: seq<Octet>) returns (yes: bool)
    ensures yes <==> tag in tags
  {
    var i := 0;
    while i < |tags| && tags[i] != tag
      invariant i <= |tags| && tag !in tags[..i]
    {
      i := i + 1;
    }
    yes := i < |tags|;
  }

  /** What the scan has found, against the check on the stream. */
  ghost predicate Scanned(bufs: Chain, o: nat, header: nat, c: Check, st: Status, start: Place, length: nat, tag: Octet, next: Place) {
    && Says(st, c)
    && (c.Match? ==>
          && c.location == Location(o, length, header, tag)
          && StandsAt(bufs, start, o) && StandsAt(bufs, next, c.next))
  }

  /** Skips the value of a section whose size is known. */
  method SkipValue(bufs: Chain, start: Place, header: nat, tag: Octet, width: nat, size: nat, p: Place, ghost o: nat, ghost at: nat)
    returns (st: Status, length: nat, next: Place)
    requires StandsAt(bufs, start, o) && StandsAt(bufs, p, at) && NoneEmpty(bufs) && size < TWO_32
    ensures Scanned(bufs, o, header, WholeSection(Flat(bufs), o, header, tag, 1 + width, size, at), st, start, length, tag, next)
  {
    hide Flat, StandsAt, NoneEmpty;
    length := (1 + width + size) % TWO_32;
    next := p;
    st := IsMatch;
    if size > 0 {
      var ok;
      ok, next := Advance(bufs, p, Signed32(size), at);
      if !ok {
        st := IsNeedMore;
      }
    }
  }

  /** The section check, through the buffers. */
  method CheckSection(bufs: Chain, p: Place, pattern: seq<Octet>, tags: seq<Octet>, seen: bool, ghost o: nat)
    returns (st: Status, start: Place, length: nat, tag: Octet, next: Place)
    requires StandsAt(bufs, p, o) && NoneEmpty(bufs)
    ensures Scanned(bufs, o, |pattern|, SectionCheck(Flat(bufs), o, pattern, tags, seen),
                    st, start, length, tag, next)
  {
    hide *;
    ghost var s := Flat(bufs);
    length, tag, next := 0, 0, p;
    BeforeMatch(s, o, pattern, tags, seen);
    var can;
    can, start := CanAdvance(bufs, p, o);
    if !can {
      st := IsNeedMore;
      NotMatched(bufs, o, |pattern|, NeedMore, st, start, length, tag, next);
      return;
    }
    var q;
    Fits(bufs, start, o);
    st, q := MatchPattern(bufs, start, pattern, o);
    if st != IsMatch {
      NotMatched(bufs, o, |pattern|, MatchFrom(s, o, pattern, 0), st, start, length, tag, next);
      return;
    }
    SaysMatch(st, MatchFrom(s, o, pattern, 0));
    AfterMatch(s, o, pattern, tags, seen);
    var ok;
    ok, tag, q := NextOctet(bufs, q, o + |pattern|);
    var yes := IsExpected(tag, tags);
    if !yes || seen {
      st := IsInvalid;
      NotMatched(bufs, o, |pattern|, Invalid, st, start, length, tag, next);
      return;
    }
    ghost var at := o + |pattern| + 1;
    can, q := CanAdvance(bufs, q, at);
    if !can && tag / 16 != 4 {
      st := IsNeedMore;
      NotMatched(bufs, o, |pattern|, NeedMore, st, start, length, tag, next);
      return;
    }
    var width, size := SizeLength(tag), FixedSize(tag);
    NullHasNoSize(tag);
    if width > 0 {
      ok, size, q := ReadSize(bufs, q, width, at);
      if !ok {
        st := IsNeedMore;
        NotMatched(bufs, o, |pattern|, NeedMore, st, start, length, tag, next);
        return;
      }
      SizeInRange(s, at, width);
    }
    st, length, next := SkipValue(bufs, start, |pattern|, tag, width, size, q, o, at + width);
  }

  lemma {:induction false} Fits(bufs: Chain, p: Place, o: nat)
    requires StandsAt(bufs, p, o)
    ensures p.buf < |bufs|
  {
  }

  lemma {:induction false} NotMatched(bufs: Chain, o: nat, header: nat, c: Check, st: Status,
                                      start: Place, length: nat, tag: Octet, next: Place)
    requires (Says(st, c) && st != IsMatch) || (c == NeedMore && st == IsNeedMore) || (c == Invalid && st == IsInvalid)
    ensures Scanned(bufs, o, header, c, st, start, length, tag, next)
    ensures !c.Match?
  {
  }

  lemma {:induction false} SaysMatch(st: Status, c: Check)
    requires Says(st, c)
    ensures c.Match? <==> st == IsMatch
  {
  }

  lemma {:induction false} NullHasNoSize(tag: Octet)
    ensures tag / 16 == 4 ==> SizeLength(tag) == 0
    ensures SizeLength(tag) == 0 || SizeLength(tag) == 1 || SizeLength(tag) == 4
    ensures FixedSize(tag) < TWO_32
  {
  }

  lemma {:induction false} SizeInRange(s: seq<Octet>, at: nat, n: nat)
    requires at + n <= |s| && n <= 4
    ensures NumberAt(s, at, n) < TWO_32
  {
    Powers();
    NumberBelow(s[at..at + n]);
    assert Pow256(2) == 0x1_0000 && Pow256(3) == 0x100_0000;
  }
}
