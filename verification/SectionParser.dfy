/** The depth check of a message content, on the chain of buffers received so far: the parse cursor, the depth
    reached and the locations found are updated in place, and resume from call to call. */
module SectionParser {
  import opened Basics
  import opened Amqp
  import opened Buffers
  import opened Sections
  import opened SectionScan

  /** A section's location as the content keeps it. */
  datatype Found = Found(place: Place, length: nat, header: nat, tag: Octet)

  /** What a scan of one section has found. */
  datatype Scan = Scan(status: Status, start: Place, length: nat, header: nat, tag: Octet, next: Place)

  ghost predicate ScanOk(bufs: Chain, o: nat, c: Check, s: Scan) {
    && Says(s.status, c)
    && (c.Match? ==>
          && c.location == Location(o, s.length, s.header, s.tag)
          && StandsAt(bufs, s.start, o) && StandsAt(bufs, s.next, c.next))
  }

  method ScanSection(bufs: Chain, p: Place, pattern: seq<Octet>, tags: seq<Octet>, seen: bool, ghost o: nat)
    returns (s: Scan)
    requires StandsAt(bufs, p, o) && NoneEmpty(bufs)
    ensures ScanOk(bufs, o, SectionCheck(Flat(bufs), o, pattern, tags, seen), s)
  {
    var status, start, length, tag, next := CheckSection(bufs, p, pattern, tags, seen, o);
    s := Scan(status, start, length, |pattern|, tag, next);
    hide Flat, SectionCheck, StandsAt;
  }

  /** The short form of the descriptor, then the long one. */
  method ScanTwoForms(bufs: Chain, p: Place, code: Octet, tags: seq<Octet>, seen: bool, ghost o: nat) returns (s: Scan)
    requires StandsAt(bufs, p, o) && NoneEmpty(bufs)
    ensures ScanOk(bufs, o, TwoForms(Flat(bufs), o, code, tags, seen), s)
  {
    hide Flat, SectionCheck, StandsAt, NoneEmpty;
    s := ScanSection(bufs, p, Sections.Short(code), tags, seen, o);
    if s.status == IsNoMatch {
      s := ScanSection(bufs, p, Sections.Long(code), tags, seen, o);
    }
  }

  ghost function OffsetOf(bufs: Chain, p: Place): nat {
    if p.buf <= |bufs| then Offset(bufs, p.buf) + p.off else 0
  }

  ghost predicate InChain(bufs: Chain, p: Place) {
    p.buf < |bufs| && p.off <= |bufs[p.buf]|
  }

  lemma StandsIs(bufs: Chain, p: Place, o: nat)
    ensures StandsAt(bufs, p, o) <==> InChain(bufs, p) && OffsetOf(bufs, p) == o
  {
  }

  ghost function LocationOf(bufs: Chain, f: Found): Location {
    Location(OffsetOf(bufs, f.place), f.length, f.header, f.tag)
  }

  /** The locations found, as offsets in the stream. */
  ghost function Locations(bufs: Chain, found: map<nat, Found>): map<nat, Location> {
    map k | k in found :: LocationOf(bufs, found[k])
  }

  ghost predicate FoundOk(bufs: Chain, found: map<nat, Found>) {
    forall k :: k in found ==> InChain(bufs, found[k].place)
  }

  /** More octets behind the chain move nothing that has been found. */
  lemma PlaceStays(bufs: Chain, buf: seq<Octet>, p: Place)
    requires InChain(bufs, p)
    ensures InChain(bufs + [buf], p) && OffsetOf(bufs + [buf], p) == OffsetOf(bufs, p)
  {
    FlatPush(bufs, buf, p.buf);
  }

  lemma LocationsStay(bufs: Chain, buf: seq<Octet>, found: map<nat, Found>)
    requires FoundOk(bufs, found)
    ensures FoundOk(bufs + [buf], found) && Locations(bufs + [buf], found) == Locations(bufs, found)
  {
    forall k | k in found ensures InChain(bufs + [buf], found[k].place) && LocationOf(bufs + [buf], found[k]) == LocationOf(bufs, found[k]) {
      PlaceStays(bufs, buf, found[k].place);
    }
  }

  lemma OneMoreFound(bufs: Chain, found: map<nat, Found>, k: nat, f: Found)
    requires FoundOk(bufs, found) && InChain(bufs, f.place)
    ensures FoundOk(bufs, found[k := f])
    ensures Locations(bufs, found[k := f]) == Locations(bufs, found)[k := LocationOf(bufs, f)]
  {
  }

  class Parser {
    var bufs: Chain
    var complete: bool
    var place: Place
    var depth: nat
    var found: map<nat, Found>

    ghost predicate Valid()
      reads this
    {
      && NoneEmpty(bufs) && FoundOk(bufs, found)
      && (bufs != [] ==> InChain(bufs, place))
      && (bufs == [] ==> place == Place(0, 0) && depth == 0 && found == map[])
    }

    /** The parse, in terms of the stream. */
    ghost function Parsed(): ParseState
      reads this
    {
      ParseState(depth, OffsetOf(bufs, place), Locations(bufs, found))
    }

    constructor ()
      ensures Valid() && bufs == [] && !complete && Parsed() == START
    {
      bufs, complete, place, depth, found := [], false, Place(0, 0), 0, map[];
      new;
      assert bufs[..0] == [];
    }

    /** Octets arrive in a buffer of their own. */
    method Arrive(data: seq<Octet>)
      requires Valid() && data != [] && !complete
      modifies this`bufs
      ensures Valid() && Flat(bufs) == Flat(old(bufs)) + data && Parsed() == old(Parsed())
    {
      FlatPush(bufs, data, 0);
      LocationsStay(bufs, data, found);
      if bufs != [] {
        PlaceStays(bufs, data, place);
      } else {
        assert (bufs + [data])[..0] == [] && bufs[..0] == [];
      }
      bufs := bufs + [data];
    }

    method Complete()
      requires Valid()
      modifies this`complete
      ensures Valid() && complete && Parsed() == old(Parsed())
    {
      complete := true;
    }

    /** What the scan of a section means for the parse. */
    method SettleScan(k: nat, s: Scan, optional: bool, ghost c: Check) returns (v: Verdict)
      requires Valid() && bufs != [] && ScanOk(bufs, OffsetOf(bufs, place), c, s)
      modifies this`place, this`depth, this`found
      ensures Valid() && (Parsed(), v) == Settle(Flat(bufs), complete, old(Parsed()), k, c, optional)
    {
      hide Flat, NoneEmpty, FoundOk, Locations, StandsAt, InChain, OffsetOf;
      ghost var o := OffsetOf(bufs, place);
      StandsIs(bufs, place, o);
      match s.status
      case IsMatch =>
        var f := Found(s.start, s.length, s.header, s.tag);
        StandsIs(bufs, s.start, o);
        StandsIs(bufs, s.next, c.next);
        OneMoreFound(bufs, found, k, f);
        depth, place, found := k, s.next, found[k := f];
        v := Ok;
      case IsNoMatch =>
        if optional {
          depth := k;
          v := Ok;
        } else {
          v := Bad;
        }
      case IsNeedMore =>
        if !complete {
          return Incomplete;
        }
        var can, q := CanAdvance(bufs, place, o);
        StandsIs(bufs, q, o);
        place := q;
        v := if !can && optional then Ok else Bad;
      case IsInvalid =>
        v := Bad;
    }

    /** The body, as a value, as data, or as a sequence. */
    method CheckBody() returns (v: Verdict)
      requires Valid() && bufs != []
      modifies this`place, this`depth, this`found
      ensures Valid() && (Parsed(), v) == BodyCheck(Flat(bufs), complete, old(Parsed()))
    {
      hide Flat, NoneEmpty, FoundOk, StandsAt, InChain, OffsetOf, TwoForms, SectionCheck, ScanOk;
      ghost var o := OffsetOf(bufs, place);
      StandsIs(bufs, place, o);
      var seen := BODY in found;
      var s := ScanTwoForms(bufs, place, 0x77, TAGS_ANY, seen, o);
      v := SettleScan(BODY, s, false, TwoForms(Flat(bufs), o, 0x77, TAGS_ANY, seen));
      if v == Bad {
        StandsIs(bufs, place, o);
        s := ScanTwoForms(bufs, place, 0x75, TAGS_BINARY, seen, o);
        v := SettleScan(BODY, s, false, TwoForms(Flat(bufs), o, 0x75, TAGS_BINARY, seen));
        if v == Bad {
          StandsIs(bufs, place, o);
          s := ScanTwoForms(bufs, place, 0x76, TAGS_LIST, seen, o);
          v := SettleScan(BODY, s, true, TwoForms(Flat(bufs), o, 0x76, TAGS_LIST, seen));
        }
      }
    }

    /** One section. */
    method CheckSectionAt(k: nat) returns (v: Verdict)
      requires Valid() && bufs != []
      modifies this`place, this`depth, this`found
      ensures Valid() && (Parsed(), v) == DepthCheck(Flat(bufs), complete, old(Parsed()), k)
    {
      hide Flat, NoneEmpty, FoundOk, StandsAt, InChain, OffsetOf, TwoForms, SectionCheck, ScanOk, BodyCheck, Settle;
      if k == BODY {
        v := CheckBody();
      } else if k == RAW_BODY {
        var f := Found(place, 0, 0, 0);
        OneMoreFound(bufs, found, RAW_BODY, f);
        found := found[RAW_BODY := f];
        depth := RAW_BODY;
        v := Ok;
      } else {
        ghost var o := OffsetOf(bufs, place);
        StandsIs(bufs, place, o);
        var seen := k in found;
        var s;
        if k == ROUTER_ANNOTATIONS {
          s := ScanSection(bufs, place, ROUTER_ANNOTATION_LONG, TagsOf(k), seen, o);
          v := SettleScan(k, s, true, SectionCheck(Flat(bufs), o, ROUTER_ANNOTATION_LONG, TagsOf(k), seen));
        } else {
          s := ScanTwoForms(bufs, place, CodeOf(k), TagsOf(k), seen, o);
          v := SettleScan(k, s, true, TwoForms(Flat(bufs), o, CodeOf(k), TagsOf(k), seen));
        }
      }
    }

    /** Parses on to the depth asked for, as far as the octets received allow: the same as the check on
        the stream, from where the last call left off. */
    method CheckDepthNow(asked: nat) returns (v: Verdict)
      requires Valid() && asked <= ALL
      modifies this`place, this`depth, this`found
      ensures Valid() && (Parsed(), v) == CheckDepth(Flat(bufs), complete, old(Parsed()), asked)
    {
      hide Flat, DepthCheck, Locations, OffsetOf;
      if asked <= depth {
        return Ok;
      }
      if bufs == [] {
        EmptyChain();
        return if complete then Bad else Incomplete;
      }
      FullChain(bufs);
      ghost var goal := CheckFrom(Flat(bufs), complete, Parsed(), depth + 1, asked);
      var k := depth + 1;
      v := CheckSectionAt(k);
      while v == Ok && k < asked
        invariant Valid() && k <= asked
        invariant v == Ok && k < asked ==> CheckFrom(Flat(bufs), complete, Parsed(), k + 1, asked) == goal
        invariant v != Ok || k == asked ==> (Parsed(), v) == goal
        decreases asked - k
      {
        k := k + 1;
        v := CheckSectionAt(k);
      }
    }
  }

  lemma EmptyChain()
    ensures Flat<Octet>([]) == []
  {
  }

  lemma FullChain(bufs: Chain)
    requires bufs != [] && NoneEmpty(bufs)
    ensures Flat(bufs) != []
  {
  }

  /** Octets arrive up to `until`, in buffers of any sizes. */
  method ArriveUpTo(p: Parser, stream: seq<Octet>, from: nat, until: nat, size: nat -> nat)
    requires p.Valid() && from <= until <= |stream| && Flat(p.bufs) == stream[..from] && (from < until ==> !p.complete)
    modifies p`bufs
    ensures p.Valid() && Flat(p.bufs) == stream[..until] && p.Parsed() == old(p.Parsed())
  {
    hide Flat, OffsetOf, Locations;
    var got: nat, k: nat := from, 0;
    while got < until
      invariant from <= got <= until && (got < until ==> !p.complete)
      invariant p.Valid() && Flat(p.bufs) == stream[..got] && p.Parsed() == old(p.Parsed())
      decreases until - got
    {
      var n := if size(k) == 0 then 1 else if size(k) < until - got then size(k) else until - got;
      p.Arrive(stream[got..got + n]);
      assert stream[..got] + stream[got..got + n] == stream[..got + n];
      got, k := got + n, k + 1;
    }
  }

  /** A parser that is fed a stream in buffers of any sizes and asked for any depths on the way: each of its verdicts
      but "incomplete", and each section it finds, is that of parsing the whole stream at once. */
  method ParseHistory(stream: seq<Octet>, rs: seq<Request>, size: nat -> nat) returns (verdicts: seq<Verdict>, p: Parser)
    requires History(stream, rs)
    ensures |verdicts| == |rs| && fresh(p) && p.Valid()
    ensures forall i :: 0 <= i < |rs| && verdicts[i] != Incomplete ==> verdicts[i] == OneShot(stream, rs[i].asked).1
    ensures forall i, j :: 0 <= i <= j < |rs| && rs[i].asked == rs[j].asked && verdicts[i] != Incomplete ==>
              verdicts[j] == verdicts[i]
    ensures forall k :: k in p.Parsed().found ==>
              k in OneShot(stream, ALL).0.found && p.Parsed().found[k] == OneShot(stream, ALL).0.found[k]
    ensures rs != [] && rs[|rs| - 1].complete && rs[|rs| - 1].asked == ALL ==>
              (p.Parsed(), verdicts[|rs| - 1]) == OneShot(stream, ALL)
  {
    hide Flat, CheckDepth, OffsetOf, Locations;
    p := new Parser();
    EmptyChain();
    verdicts := [];
    var received := 0;
    for i := 0 to |rs|
      invariant p.Valid() && fresh(p) && |verdicts| == i && p.Parsed() == StateAt(stream, rs, i)
      invariant received == (if i == 0 then 0 else rs[i - 1].received) && Flat(p.bufs) == stream[..received]
      invariant p.complete == (i > 0 && rs[i - 1].complete)
      invariant forall j :: 0 <= j < i ==> verdicts[j] == Answer(stream, rs, j).1
    {
      ArriveUpTo(p, stream, received, rs[i].received, size);
      received := rs[i].received;
      if rs[i].complete && !p.complete {
        p.Complete();
      }
      var v := p.CheckDepthNow(rs[i].asked);
      verdicts := verdicts + [v];
    }
    HistoryIsOneShot(stream, rs, verdicts);
  }

  lemma HistoryIsOneShot(stream: seq<Octet>, rs: seq<Request>, verdicts: seq<Verdict>)
    requires History(stream, rs) && |verdicts| == |rs|
    requires forall j :: 0 <= j < |rs| ==> verdicts[j] == Answer(stream, rs, j).1
    ensures forall i :: 0 <= i < |rs| && verdicts[i] != Incomplete ==> verdicts[i] == OneShot(stream, rs[i].asked).1
    ensures forall i, j :: 0 <= i <= j < |rs| && rs[i].asked == rs[j].asked && verdicts[i] != Incomplete ==>
              verdicts[j] == verdicts[i]
    ensures forall k :: k in StateAt(stream, rs, |rs|).found ==>
              k in OneShot(stream, ALL).0.found && StateAt(stream, rs, |rs|).found[k] == OneShot(stream, ALL).0.found[k]
    ensures rs != [] && rs[|rs| - 1].complete && rs[|rs| - 1].asked == ALL ==>
              (StateAt(stream, rs, |rs|), verdicts[|rs| - 1]) == OneShot(stream, ALL)
  {
    hide CheckDepth, OneShot;
    forall i | 0 <= i < |rs| && verdicts[i] != Incomplete ensures verdicts[i] == OneShot(stream, rs[i].asked).1 {
      ResumableIsOneShot(stream, rs, i);
    }
    forall i, j | 0 <= i <= j < |rs| && rs[i].asked == rs[j].asked && verdicts[i] != Incomplete
      ensures verdicts[j] == verdicts[i]
    {
      VerdictsStay(stream, rs, i, j);
    }
    if |rs| > 0 {
      ResumableIsOneShot(stream, rs, |rs| - 1);
      StateIsEquivalent(stream, rs, |rs| - 1, ALL);
      assert rs[|rs| - 1].complete ==> stream[..rs[|rs| - 1].received] == stream;
    }
  }
}
