/** Longest-prefix lookup: the hashes of all prefixes of an address that end before a separator are taken in
    one pass, then the view of the address is trimmed from the longest to the
    shortest until one is in the table. */
module Prefix {
  import opened Hash
  import opened Options

  /** A prefix of the view, and its hash. */
  datatype Segment = Segment(hash: nat, length: nat)

  /** The separators; the search for one in a C string also finds its end. */
  predicate IsSeparator(c: char) {
    c == '.' || c == '/' || c == '\0'
  }

  /** A prefix of this length is looked up: the whole view, or what is before a separator. */
  predicate Candidate(view: string, n: nat) {
    n == |view| || (n < |view| && (view[n] == '.' || view[n] == '/' || view[n] == '\0'))
  }

  /** The segments of the first `n` characters, shortest first. */
  function SegmentsUpTo(view: string, n: nat): seq<Segment>
    requires n <= |view|
  {
    if n == 0 then []
    else
      SegmentsUpTo(view, n - 1) +
      if IsSeparator(view[n - 1]) then [Segment(HashOf(view[..n - 1]), n - 1)] else []
  }

  function SegmentsOf(view: string): seq<Segment> {
    SegmentsUpTo(view, |view|) + [Segment(HashOf(view), |view|)]
  }

  /** The segments are the candidates below `n`, with their hashes, in order. */
  ghost predicate SegmentsOk(view: string, s: seq<Segment>, n: nat) {
    && (forall i :: 0 <= i < |s| ==>
          && s[i].length < n && s[i].length <= |view| && Candidate(view, s[i].length)
          && s[i].hash == HashOf(view[..s[i].length]))
    && (forall i, j :: 0 <= i < j < |s| ==> s[i].length < s[j].length)
    && (forall m :: 0 <= m < n && m <= |view| && Candidate(view, m) ==> exists i :: 0 <= i < |s| && s[i].length == m)
  }

  lemma OneMoreSegment(view: string, s: seq<Segment>, n: nat)
    requires n <= |view| && SegmentsOk(view, s, n)
    ensures !Candidate(view, n) ==> SegmentsOk(view, s, n + 1)
    ensures Candidate(view, n) ==> SegmentsOk(view, s + [Segment(HashOf(view[..n]), n)], n + 1)
  {
    hide HashOf;
    if Candidate(view, n) {
      var t := s + [Segment(HashOf(view[..n]), n)];
      forall m | 0 <= m < n + 1 && m <= |view| && Candidate(view, m) ensures exists i :: 0 <= i < |t| && t[i].length == m {
        if m == n {
          assert t[|s|].length == m;
        } else {
          var i :| 0 <= i < |s| && s[i].length == m;
          assert t[i].length == m;
        }
      }
    }
  }

  lemma {:induction false} SegmentsAreCandidates(view: string, n: nat)
    requires n <= |view|
    ensures SegmentsOk(view, SegmentsUpTo(view, n), n)
    decreases n
  {
    hide SegmentsOk, HashOf;
    if n == 0 {
      assert SegmentsOk(view, [], 0) by { NoSegments(view); }
    } else {
      SegmentsAreCandidates(view, n - 1);
      OneMoreSegment(view, SegmentsUpTo(view, n - 1), n - 1);
      assert SegmentsUpTo(view, n - 1) + [] == SegmentsUpTo(view, n - 1);
    }
  }

  lemma NoSegments(view: string)
    ensures SegmentsOk(view, [], 0)
  {
  }

  lemma SegmentsOfView(view: string)
    ensures SegmentsOk(view, SegmentsOf(view), |view| + 1) && SegmentsOf(view) != []
  {
    hide SegmentsOk, HashOf;
    SegmentsAreCandidates(view, |view|);
    OneMoreSegment(view, SegmentsUpTo(view, |view|), |view|);
    assert view[..|view|] == view;
  }

  /** The longest candidate below `n` that is a key of the table, if there is one. */
  ghost predicate LongestBelow(keys: map<string, Ref>, view: string, n: nat, best: Option<nat>) {
    && (best.Some? ==>
          && best.value < n && best.value <= |view| && Candidate(view, best.value) && view[..best.value] in keys
          && forall m :: best.value < m < n && m <= |view| && Candidate(view, m) ==> view[..m] !in keys)
    && (best.None? ==> forall m :: 0 <= m < n && m <= |view| && Candidate(view, m) ==> view[..m] !in keys)
  }

  /** The longest stored candidate is `best`, and `val` is its value; or there is none. */
  ghost predicate Found(keys: map<string, Ref>, view: string, best: Option<nat>, val: Option<Ref>) {
    && LongestBelow(keys, view, |view| + 1, best)
    && val == if best.Some? then Some(keys[view[..best.value]]) else None
  }

  /** An address iterator: an optional prefix character in front of the text, both of which
      can be cut from the end. */
  class AddressIterator {
    const prefix: string
    const text: string
    var annotation: nat
    var left: nat
    var segments: seq<Segment>

    ghost predicate Valid()
      reads this
    {
      |prefix| <= 1 && annotation <= |prefix| && left <= |text| && (left > 0 ==> annotation == |prefix|)
    }

    /** The characters the iterator yields. */
    function View(): string
      reads this
      requires annotation <= |prefix| && left <= |text|
    {
      prefix[..annotation] + text[..left]
    }

    constructor (prefix: string, text: string)
      requires |prefix| <= 1
      ensures Valid() && View() == prefix + text && segments == []
    {
      this.prefix, this.text := prefix, text;
      annotation, left, segments := |prefix|, |text|, [];
      new;
      assert prefix[..|prefix|] == prefix && text[..|text|] == text;
    }

    /** Cuts the view to `length` characters, the text before the prefix character. */
    method TrimView(length: nat)
      requires Valid()
      modifies this`annotation, this`left
      ensures Valid()
      ensures View() == if length < |old(View())| then old(View())[..length] else old(View())
    {
      ghost var view := View();
      var viewLength := annotation + left;
      if viewLength > length {
        if annotation > length {
          annotation, left := length, 0;
        } else {
          left := left - (viewLength - length);
        }
        assert View() == view[..length];
      }
    }

    /** Takes the hash of the view and of its prefixes in one pass. */
    method HashViewSegments()
      requires Valid()
      modifies this`segments
      ensures segments == SegmentsOf(View())
    {
      hide HashOf;
      var view := View();
      var hash, length := HASH_INIT, 0;
      segments := [];
      EmptyHash(view);
      while length < annotation + left
        invariant length <= |view| && view == View() && Valid()
        invariant hash == HashOf(view[..length])
        invariant segments == SegmentsUpTo(view, length)
      {
        var octet := if length < annotation then prefix[length] else text[length - annotation];
        assert octet == view[length];
        length := length + 1;
        if IsSeparator(octet) {
          segments := segments + [Segment(hash, length - 1)];
        }
        NextHash(view, length - 1);
        hash := HashCompute(hash, octet as nat);
      }
      assert view[..|view|] == view;
      segments := segments + [Segment(hash, length)];
    }

    /** Trims the view to the longest segment left, and gives its hash. */
    method NextSegment() returns (hash: Option<nat>)
      requires Valid()
      modifies this
      ensures Valid()
      ensures hash.None? <==> old(segments) == []
      ensures hash.None? ==> View() == old(View()) && segments == []
      ensures hash.Some? ==>
        var last := old(segments)[|old(segments)| - 1];
        && hash.value == last.hash && segments == old(segments)[..|old(segments)| - 1]
        && View() == if last.length < |old(View())| then old(View())[..last.length] else old(View())
    {
      if segments == [] {
        return None;
      }
      var last := segments[|segments| - 1];
      TrimView(last.length);
      segments := segments[..|segments| - 1];
      hash := Some(last.hash);
    }
  }

  lemma EmptyHash(view: string)
    ensures HashOf(view[..0]) == HASH_INIT
  {
  }

  lemma NextHash(view: string, n: nat)
    requires n < |view|
    ensures HashOf(view[..n + 1]) == HashCompute(HashOf(view[..n]), view[n] as nat)
  {
    assert view[..n + 1] == view[..n] + [view[n]];
    HashFromConcat(HASH_INIT, view[..n], [view[n]]);
    assert HashFrom(HashOf(view[..n]), [view[n]]) == HashFrom(HashCompute(HashOf(view[..n]), view[n] as nat), []);
  }

  /** The candidates from the `k`-th segment on are not in the table. */
  ghost predicate NoneFrom(keys: map<string, Ref>, view: string, k: nat)
    requires k <= |SegmentsOf(view)|
  {
    forall i :: k <= i < |SegmentsOf(view)| ==> view[..SegmentLength(view, i)] !in keys
  }

  function SegmentLength(view: string, i: nat): (n: nat)
    requires i < |SegmentsOf(view)|
    ensures n <= |view|
  {
    SegmentsOfView(view);
    SegmentsOf(view)[i].length
  }

  lemma FoundLongest(keys: map<string, Ref>, view: string, k: nat)
    requires k < |SegmentsOf(view)| && NoneFrom(keys, view, k + 1) && view[..SegmentLength(view, k)] in keys
    ensures LongestBelow(keys, view, |view| + 1, Some(SegmentLength(view, k)))
  {
    hide HashOf;
    SegmentsOfView(view);
    var s := SegmentsOf(view);
    forall m | s[k].length < m <= |view| && Candidate(view, m) ensures view[..m] !in keys {
      var i :| 0 <= i < |s| && s[i].length == m;
      assert i > k && SegmentLength(view, i) == m;
    }
  }

  lemma FoundNone(keys: map<string, Ref>, view: string)
    requires NoneFrom(keys, view, 0)
    ensures LongestBelow(keys, view, |view| + 1, None)
  {
    hide HashOf;
    SegmentsOfView(view);
    var s := SegmentsOf(view);
    forall m | 0 <= m <= |view| && Candidate(view, m) ensures view[..m] !in keys {
      var i :| 0 <= i < |s| && s[i].length == m;
      assert SegmentLength(view, i) == m;
    }
  }

  /** The view while the segments from the `k`-th on are used up. */
  function Trimmed(view: string, k: nat): string
    requires k <= |SegmentsOf(view)|
  {
    if k == |SegmentsOf(view)| then view else view[..SegmentLength(view, k)]
  }

  lemma TrimmedFurther(view: string, k: nat)
    requires k < |SegmentsOf(view)|
    ensures var n := SegmentsOf(view)[k].length;
      && (n < |Trimmed(view, k + 1)| ==> Trimmed(view, k + 1)[..n] == Trimmed(view, k))
      && (n >= |Trimmed(view, k + 1)| ==> Trimmed(view, k + 1) == Trimmed(view, k))
      && SegmentsOf(view)[k].hash == HashOf(Trimmed(view, k))
  {
    hide HashOf;
    SegmentsOfView(view);
    assert view[..|view|] == view;
  }

  /** The iterator has been trimmed down to segment `k`, and none of the longer ones is in the table. */
  ghost predicate Searching(keys: map<string, Ref>, view: string, k: nat, segments: seq<Segment>, current: string) {
    && k <= |SegmentsOf(view)|
    && segments == SegmentsOf(view)[..k]
    && current == Trimmed(view, k)
    && NoneFrom(keys, view, k)
  }

  lemma SearchStarts(keys: map<string, Ref>, view: string)
    ensures Searching(keys, view, |SegmentsOf(view)|, SegmentsOf(view), view)
  {
    hide SegmentsOf;
    assert SegmentsOf(view)[..|SegmentsOf(view)|] == SegmentsOf(view);
  }

  lemma SearchEnds(keys: map<string, Ref>, view: string, k: nat, segments: seq<Segment>, current: string)
    requires Searching(keys, view, k, segments, current) && segments == []
    ensures LongestBelow(keys, view, |view| + 1, None)
  {
    hide SegmentsOf, LongestBelow;
    FoundNone(keys, view);
  }

  /** After one more trim, the hash is that of the view, and either this segment is the answer or the search goes on. */
  lemma SearchGoesOn(keys: map<string, Ref>, view: string, k: nat, segments: seq<Segment>, before: string, current: string)
    returns (n: nat)
    requires Searching(keys, view, k, segments, before) && segments != []
    requires var last := segments[|segments| - 1];
      current == if last.length < |before| then before[..last.length] else before
    ensures k > 0 && segments[|segments| - 1].hash == HashOf(current)
    ensures current !in keys ==> Searching(keys, view, k - 1, segments[..|segments| - 1], current)
    ensures current in keys ==> n <= |view| && view[..n] == current && LongestBelow(keys, view, |view| + 1, Some(n))
  {
    hide SegmentsOf, LongestBelow, HashOf;
    TrimmedFurther(view, k - 1);
    n := SegmentLength(view, k - 1);
    if current in keys {
      FoundLongest(keys, view, k - 1);
    }
    assert segments[..|segments| - 1] == SegmentsOf(view)[..k - 1];
  }

  /** Looks the next segment up; the search is over when it is in the table, or when there is none. */
  method TrySegment(table: HashTable, iter: AddressIterator, ghost view: string, ghost k: nat)
    returns (val: Option<Ref>, over: bool, ghost best: Option<nat>)
    requires table.Valid() && iter.Valid() && Searching(table.Contents, view, k, iter.segments, iter.View())
    modifies iter
    ensures iter.Valid()
    ensures over ==> Found(table.Contents, view, best, val)
    ensures !over ==> k > 0 && Searching(table.Contents, view, k - 1, iter.segments, iter.View())
  {
    hide HashOf, SegmentsOf, TableOk, LongestBelow, Searching;
    ghost var segments, before := iter.segments, iter.View();
    var hash := iter.NextSegment();
    if hash.None? {
      SearchEnds(table.Contents, view, k, segments, before);
      return None, true, None;
    }
    var current := iter.View();
    ghost var n := SearchGoesOn(table.Contents, view, k, segments, before, current);
    val := table.RetrieveWithHash(hash.value, current);
    over, best := val.Some?, Some(n);
    if over {
      assert LongestBelow(table.Contents, view, |view| + 1, best);
    }
  }

  /** The value of the longest candidate in the table, or nothing. */
  method RetrievePrefix(table: HashTable, iter: AddressIterator) returns (val: Option<Ref>, ghost best: Option<nat>)
    requires table.Valid() && iter.Valid()
    modifies iter
    ensures Found(table.Contents, old(iter.View()), best, val)
  {
    ghost var view := iter.View();
    hide HashOf, SegmentsOf, TableOk, Found, Searching;
    iter.HashViewSegments();
    ghost var k: nat := |SegmentsOf(view)|;
    SearchStarts(table.Contents, view);
    var over;
    val, over, best := TrySegment(table, iter, view, k);
    while !over
      invariant iter.Valid()
      invariant over ==> Found(table.Contents, view, best, val)
      invariant !over ==> k > 0 && Searching(table.Contents, view, k - 1, iter.segments, iter.View())
      decreases k
    {
      k := k - 1;
      val, over, best := TrySegment(table, iter, view, k);
    }
  }
}
