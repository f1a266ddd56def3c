/** Parsing the sections of a message (AMQP 1.0 Part 3, section 3.2) while it arrives: each depth check
    resumes where the last one stopped, on the octets received so far.

    The positions here are offsets in the stream. */
module Sections {
  import opened Basics
  import opened Amqp

  /** A section found in the stream: where it starts, the length of its value with its type tag,
      the length of its descriptor, and the tag. */
  datatype Location = Location(at: nat, length: nat, header: nat, tag: Octet)

  datatype Check = Invalid | NoMatch | NeedMore | Match(location: Location, next: nat)

  datatype Verdict = Incomplete | Bad | Ok

  const ROUTER_ANNOTATIONS := 1
  const BODY := 7
  const RAW_BODY := 8
  const ALL := 9

  /** How far the parse has come, where it resumes, and what it has found, by depth. */
  datatype ParseState = ParseState(depth: nat, pos: nat, found: map<nat, Location>)

  const START := ParseState(0, 0, map[])

  // ---------------------------------------------------------------- one section

  /** Compares a descriptor octet by octet; each match needs one octet more to be there. */
  function MatchFrom(s: seq<Octet>, p: nat, pattern: seq<Octet>, i: nat): Check
    requires i <= |pattern| && p + i < |s|
    decreases |pattern| - i
  {
    if i == |pattern| then Match(Location(p, 0, i, s[p + i]), p + i)
    else if s[p + i] != pattern[i] then NoMatch
    else if p + i + 1 == |s| then NeedMore
    else MatchFrom(s, p, pattern, i + 1)
  }

  /** The octets a section's value takes, read as a signed 32-bit number: a size from 2^31 on moves nothing. */
  function Moved(size: nat): nat {
    if size < 0x8000_0000 then size else 0
  }

  /** The section whose value of `size` octets starts at `q`, if it is all there. */
  function WholeSection(s: seq<Octet>, p: nat, header: nat, tag: Octet, pre: nat, size: nat, q: nat): Check {
    if size > 0 && (q >= |s| || q + Moved(size) > |s|) then NeedMore
    else Match(Location(p, (pre + size) % TWO_32, header, tag), q + Moved(size))
  }

  /** Whether a section with this descriptor and one of these tags lies at `p`. */
  function SectionCheck(s: seq<Octet>, p: nat, pattern: seq<Octet>, tags: seq<Octet>, seen: bool): Check {
    if p >= |s| then NeedMore
    else
      var m := MatchFrom(s, p, pattern, 0);
      if !m.Match? then m
      else if m.location.tag !in tags || seen then Invalid
      else
        var tag, q := m.location.tag, p + |pattern| + 1;
        var width := SizeLength(tag);
        if q >= |s| && tag / 16 != 4 then NeedMore
        else if width == 0 then WholeSection(s, p, |pattern|, tag, 1, FixedSize(tag), q)
        else if q + width > |s| then NeedMore
        else WholeSection(s, p, |pattern|, tag, 1 + width, NumberAt(s, q, width), q + width)
  }

  // ---------------------------------------------------------------- the sections in order

  function Long(code: Octet): seq<Octet> {
    [0x00, 0x80, 0, 0, 0, 0, 0, 0, 0, code]
  }

  function Short(code: Octet): seq<Octet> {
    [0x00, 0x53, code]
  }

  const ROUTER_ANNOTATION_LONG: seq<Octet> := [0x00, 0x80, 0x53, 0x4B, 0x50, 0x52, 0x2D, 0x2D, 0x52, 0x41]

  const TAGS_LIST: seq<Octet> := [0x45, 0xC0, 0xD0]
  const TAGS_MAP: seq<Octet> := [0xC1, 0xD1]
  const TAGS_BINARY: seq<Octet> := [0xA0, 0xB0]
  const TAGS_ANY: seq<Octet> :=
    [0x45, 0xC0, 0xD0, 0xC1, 0xD1, 0xA0, 0xB0, 0xA1, 0xB1, 0xA3, 0xB3, 0xE0, 0xF0,
     0x40, 0x56, 0x41, 0x42, 0x50, 0x60, 0x70, 0x52, 0x43, 0x80, 0x53, 0x44, 0x51, 0x61, 0x71, 0x54, 0x81, 0x55,
     0x72, 0x82, 0x74, 0x84, 0x94, 0x73, 0x83, 0x98]

  /** The short form of the descriptor is tried first, then the long one. */
  function TwoForms(s: seq<Octet>, p: nat, code: Octet, tags: seq<Octet>, seen: bool): Check {
    var c := SectionCheck(s, p, Short(code), tags, seen);
    if c == NoMatch then SectionCheck(s, p, Long(code), tags, seen) else c
  }

  /** What a section check means for the parse. */
  function Settle(s: seq<Octet>, complete: bool, st: ParseState, k: nat, c: Check, optional: bool): (ParseState, Verdict) {
    match c
    case Match(location, next) => (ParseState(k, next, st.found[k := location]), Ok)
    case NoMatch => if optional then (st.(depth := k), Ok) else (st, Bad)
    case NeedMore =>
      if !complete then (st, Incomplete)
      else if st.pos >= |s| && optional then (st, Ok)
      else (st, Bad)
    case Invalid => (st, Bad)
  }

  /** The body is a value, data or a sequence; a missing body is let pass. */
  function BodyCheck(s: seq<Octet>, complete: bool, st: ParseState): (ParseState, Verdict) {
    var seen := BODY in st.found;
    var v := Settle(s, complete, st, BODY, TwoForms(s, st.pos, 0x77, TAGS_ANY, seen), false);
    if v.1 != Bad then v
    else
      var d := Settle(s, complete, st, BODY, TwoForms(s, st.pos, 0x75, TAGS_BINARY, seen), false);
      if d.1 != Bad then d
      else Settle(s, complete, st, BODY, TwoForms(s, st.pos, 0x76, TAGS_LIST, seen), true)
  }

  /** Descriptor code and tags of the sections around the body. */
  function CodeOf(k: nat): Octet {
    match k
    case 2 => 0x70
    case 3 => 0x71
    case 4 => 0x72
    case 5 => 0x73
    case 6 => 0x74
    case _ => 0x78
  }

  function TagsOf(k: nat): seq<Octet> {
    if k == 1 || k == 2 || k == 5 then TAGS_LIST else TAGS_MAP
  }

  /** Checks the section at depth `k`. */
  function DepthCheck(s: seq<Octet>, complete: bool, st: ParseState, k: nat): (ParseState, Verdict) {
    if k == BODY then BodyCheck(s, complete, st)
    else if k == RAW_BODY then
      (ParseState(RAW_BODY, st.pos, st.found[RAW_BODY := Location(st.pos, 0, 0, 0)]), Ok)
    else
      var seen := k in st.found;
      var c := if k == ROUTER_ANNOTATIONS
               then SectionCheck(s, st.pos, ROUTER_ANNOTATION_LONG, TagsOf(k), seen)
               else TwoForms(s, st.pos, CodeOf(k), TagsOf(k), seen);
      Settle(s, complete, st, k, c, true)
  }

  /** Checks the sections from depth `k` up to the one asked for. */
  function CheckFrom(s: seq<Octet>, complete: bool, st: ParseState, k: nat, asked: nat): (ParseState, Verdict)
    requires k <= asked
    decreases asked - k
  {
    var (t, v) := DepthCheck(s, complete, st, k);
    if v != Ok || k == asked then (t, v) else CheckFrom(s, complete, t, k + 1, asked)
  }

  /** A depth check on the octets received so far. */
  function CheckDepth(s: seq<Octet>, complete: bool, st: ParseState, asked: nat): (ParseState, Verdict)
    requires asked <= ALL
  {
    if asked <= st.depth then (st, Ok)
    else if s == [] then (st, if complete then Bad else Incomplete)
    else CheckFrom(s, complete, st, st.depth + 1, asked)
  }

  // ---------------------------------------------------------------- more octets change no answer

  lemma {:induction false} MatchIsStable(s: seq<Octet>, t: seq<Octet>, p: nat, pattern: seq<Octet>, i: nat)
    requires s <= t && i <= |pattern| && p + i < |s|
    ensures MatchFrom(s, p, pattern, i) != NeedMore ==> MatchFrom(t, p, pattern, i) == MatchFrom(s, p, pattern, i)
    decreases |pattern| - i
  {
    if i < |pattern| && s[p + i] == pattern[i] && p + i + 1 < |s| {
      MatchIsStable(s, t, p, pattern, i + 1);
    }
  }

  lemma NumberIsStable(s: seq<Octet>, t: seq<Octet>, at: nat, n: nat)
    requires s <= t && at + n <= |s|
    ensures NumberAt(t, at, n) == NumberAt(s, at, n)
  {
    assert t[at..at + n] == s[at..at + n];
  }

  /** An answer other than "need more" stays, whatever octets follow. */
  lemma SectionIsStable(s: seq<Octet>, t: seq<Octet>, p: nat, pattern: seq<Octet>, tags: seq<Octet>, seen: bool)
    requires s <= t
    ensures SectionCheck(s, p, pattern, tags, seen) != NeedMore ==>
              SectionCheck(t, p, pattern, tags, seen) == SectionCheck(s, p, pattern, tags, seen)
  {
    hide NumberAt;
    if p < |s| {
      MatchIsStable(s, t, p, pattern, 0);
      var m := MatchFrom(s, p, pattern, 0);
      if m.Match? {
        var q, width := p + |pattern| + 1, SizeLength(m.location.tag);
        if q + width <= |s| {
          NumberIsStable(s, t, q, width);
        }
      }
    }
  }

  lemma FormsAreStable(s: seq<Octet>, t: seq<Octet>, p: nat, code: Octet, tags: seq<Octet>, seen: bool)
    requires s <= t
    ensures TwoForms(s, p, code, tags, seen) != NeedMore ==>
              TwoForms(t, p, code, tags, seen) == TwoForms(s, p, code, tags, seen)
  {
    hide SectionCheck;
    SectionIsStable(s, t, p, Short(code), tags, seen);
    SectionIsStable(s, t, p, Long(code), tags, seen);
  }

  lemma BodyIsStable(s: seq<Octet>, t: seq<Octet>, done: bool, st: ParseState)
    requires s <= t && BodyCheck(s, false, st).1 != Incomplete
    ensures BodyCheck(t, done, st) == BodyCheck(s, false, st)
  {
    hide TwoForms;
    var seen := BODY in st.found;
    FormsAreStable(s, t, st.pos, 0x77, TAGS_ANY, seen);
    FormsAreStable(s, t, st.pos, 0x75, TAGS_BINARY, seen);
    FormsAreStable(s, t, st.pos, 0x76, TAGS_LIST, seen);
  }

  /** From `s` the stream may have grown to `t`, and then been completed. */
  predicate Later(s: seq<Octet>, complete: bool, t: seq<Octet>, done: bool) {
    s <= t && (complete ==> done && s == t)
  }

  /** A verdict reached while octets are still to come stays. */
  lemma DepthIsStable(s: seq<Octet>, complete: bool, t: seq<Octet>, done: bool, st: ParseState, k: nat)
    requires Later(s, complete, t, done)
    ensures var (u, v) := DepthCheck(s, complete, st, k);
      && (v != Incomplete ==> DepthCheck(t, done, st, k) == (u, v))
      && (v != Ok ==> u == st)
      && (v == Ok ==> u.depth == k || (u == st && complete && st.pos >= |s|))
  {
    hide TwoForms, SectionCheck;
    if !complete {
      if k == BODY {
        if BodyCheck(s, false, st).1 != Incomplete {
          BodyIsStable(s, t, done, st);
        }
      } else if k == ROUTER_ANNOTATIONS {
        SectionIsStable(s, t, st.pos, ROUTER_ANNOTATION_LONG, TagsOf(k), k in st.found);
      } else if k != RAW_BODY {
        FormsAreStable(s, t, st.pos, CodeOf(k), TagsOf(k), k in st.found);
      }
    }
  }

  /** Past the end of a complete stream every section is let pass. */
  lemma DepthAtEnd(t: seq<Octet>, st: ParseState, k: nat)
    requires st.pos >= |t|
    ensures k != RAW_BODY ==> DepthCheck(t, true, st, k) == (st, Ok)
  {
  }

  function RawBody(st: ParseState): ParseState {
    ParseState(RAW_BODY, st.pos, st.found[RAW_BODY := Location(st.pos, 0, 0, 0)])
  }

  lemma {:induction false} FromEnd(t: seq<Octet>, st: ParseState, k: nat, asked: nat)
    requires st.pos >= |t| && k <= asked <= ALL
    ensures CheckFrom(t, true, st, k, asked) == (if k <= RAW_BODY <= asked then RawBody(st) else st, Ok)
    decreases asked - k
  {
    hide BodyCheck, Settle;
    DepthAtEnd(t, st, k);
    if k < asked {
      FromEnd(t, if k == RAW_BODY then RawBody(st) else st, k + 1, asked);
    }
  }

  // ---------------------------------------------------------------- resuming

  /** A check leaves a state from which later checks give the same verdicts as without it; asked for
      everything, they end in the same state too. */
  lemma {:induction false} Resumes(s: seq<Octet>, complete: bool, t: seq<Octet>, done: bool,
                                   st: ParseState, k: nat, asked: nat, e: nat)
    requires Later(s, complete, t, done) && t != []
    requires st.depth + 1 == k <= asked <= ALL && k <= e <= ALL
    ensures var (u, v) := CheckFrom(s, complete, st, k, asked);
      && CheckDepth(t, done, u, e).1 == CheckFrom(t, done, st, k, e).1
      && (e == ALL ==> CheckDepth(t, done, u, e).0 == CheckFrom(t, done, st, k, e).0)
      && (v != Incomplete ==> CheckFrom(t, done, st, k, asked).1 == v)
      && st.depth <= u.depth
    decreases asked - k
  {
    hide DepthCheck;
    DepthIsStable(s, complete, t, done, st, k);
    var (u, v) := DepthCheck(s, complete, st, k);
    if v == Ok {
      if u.depth != k {
        ResumesAtEnd(t, st, k, asked, e);
      } else if k < asked {
        Resumes(s, complete, t, done, u, k + 1, asked, if e == k then asked else e);
      }
    }
  }

  lemma ResumesAtEnd(t: seq<Octet>, st: ParseState, k: nat, asked: nat, e: nat)
    requires t != [] && st.pos >= |t| && st.depth + 1 == k <= asked <= ALL && k <= e <= ALL
    ensures var (u, v) := CheckFrom(t, true, st, k, asked);
      && CheckDepth(t, true, u, e).1 == CheckFrom(t, true, st, k, e).1
      && (e == ALL ==> CheckDepth(t, true, u, e).0 == CheckFrom(t, true, st, k, e).0)
      && st.depth <= u.depth
  {
    hide CheckFrom;
    FromEnd(t, st, k, asked);
    FromEnd(t, st, k, e);
    if k <= RAW_BODY <= asked && e == ALL {
      FromEnd(t, RawBody(st), ALL, ALL);
    }
  }

  /** A state a parse of the stream may be in. */
  predicate ParseOk(st: ParseState, t: seq<Octet>) {
    && st.depth <= ALL
    && (t == [] ==> st.depth == 0)
    && forall k :: k in st.found ==> k <= st.depth
  }

  /** One check, from a state the parse may be in. */
  lemma CheckResumes(s: seq<Octet>, complete: bool, t: seq<Octet>, done: bool, st: ParseState, asked: nat, e: nat)
    requires Later(s, complete, t, done) && asked <= ALL && e <= ALL && ParseOk(st, t)
    ensures var (u, v) := CheckDepth(s, complete, st, asked);
      && CheckDepth(t, done, u, e).1 == CheckDepth(t, done, st, e).1
      && (e == ALL ==> CheckDepth(t, done, u, e).0 == CheckDepth(t, done, st, e).0)
      && (v != Incomplete ==> CheckDepth(t, done, st, asked).1 == v)
  {
    hide CheckFrom;
    if st.depth < asked && s != [] {
      Resumes(s, complete, t, done, st, st.depth + 1, asked, if e <= st.depth then asked else e);
    }
  }

  /** What has been found is not touched again. */
  lemma {:induction false} FromKeeps(s: seq<Octet>, complete: bool, st: ParseState, k: nat, asked: nat)
    requires st.depth < k <= asked <= ALL && forall j :: j in st.found ==> j <= st.depth
    ensures var u := CheckFrom(s, complete, st, k, asked).0;
      && u.depth <= ALL && (forall j :: j in u.found ==> j <= u.depth)
      && (forall j :: j in st.found ==> j in u.found && u.found[j] == st.found[j])
    decreases asked - k
  {
    hide TwoForms, SectionCheck;
    var (u, v) := DepthCheck(s, complete, st, k);
    if v == Ok && k < asked {
      FromKeeps(s, complete, u, k + 1, asked);
    }
  }

  lemma CheckKeeps(s: seq<Octet>, complete: bool, t: seq<Octet>, st: ParseState, asked: nat)
    requires s <= t && asked <= ALL && ParseOk(st, t)
    ensures var u := CheckDepth(s, complete, st, asked).0;
      && ParseOk(u, t)
      && (forall j :: j in st.found ==> j in u.found && u.found[j] == st.found[j])
  {
    hide CheckFrom;
    if st.depth < asked && s != [] {
      FromKeeps(s, complete, st, st.depth + 1, asked);
    }
  }

  // ---------------------------------------------------------------- whole histories

  /** One depth check, when `received` octets have arrived. */
  datatype Request = Request(received: nat, complete: bool, asked: nat)

  /** Arrivals never shrink, and only the whole stream is complete. */
  ghost predicate History(stream: seq<Octet>, rs: seq<Request>) {
    && (forall i :: 0 <= i < |rs| ==>
         rs[i].received <= |stream| && rs[i].asked <= ALL && (rs[i].complete ==> rs[i].received == |stream|))
    && (forall i :: 0 < i < |rs| ==>
         rs[i - 1].received <= rs[i].received && (rs[i - 1].complete ==> rs[i].complete))
  }

  /** The state before request `i`. */
  function StateAt(stream: seq<Octet>, rs: seq<Request>, i: nat): ParseState
    requires History(stream, rs) && i <= |rs|
    decreases i, 0
  {
    if i == 0 then START else Answer(stream, rs, i - 1).0
  }

  /** What request `i` makes of the state, and its verdict. */
  function Answer(stream: seq<Octet>, rs: seq<Request>, i: nat): (ParseState, Verdict)
    requires History(stream, rs) && i < |rs|
    decreases i, 1
  {
    CheckDepth(stream[..rs[i].received], rs[i].complete, StateAt(stream, rs, i), rs[i].asked)
  }

  /** The whole stream parsed at once. */
  function OneShot(stream: seq<Octet>, asked: nat): (ParseState, Verdict)
    requires asked <= ALL
  {
    CheckDepth(stream, true, START, asked)
  }

  lemma {:induction false} StateIsOk(stream: seq<Octet>, rs: seq<Request>, i: nat)
    requires History(stream, rs) && i <= |rs|
    ensures ParseOk(StateAt(stream, rs, i), stream)
    ensures i < |rs| && rs[i].received == 0 ==> StateAt(stream, rs, i).depth == 0
    decreases i
  {
    if i > 0 {
      hide CheckFrom;
      StateIsOk(stream, rs, i - 1);
      var r := rs[i - 1];
      CheckKeeps(stream[..r.received], r.complete, stream, StateAt(stream, rs, i - 1), r.asked);
    }
  }

  lemma {:induction false} StateIsEquivalent(stream: seq<Octet>, rs: seq<Request>, i: nat, e: nat)
    requires History(stream, rs) && i <= |rs| && e <= ALL
    ensures CheckDepth(stream, true, StateAt(stream, rs, i), e).1 == OneShot(stream, e).1
    ensures e == ALL ==> CheckDepth(stream, true, StateAt(stream, rs, i), e).0 == OneShot(stream, e).0
    decreases i
  {
    hide CheckDepth, ParseOk;
    if i > 0 {
      StateIsOk(stream, rs, i - 1);
      StateIsEquivalent(stream, rs, i - 1, e);
      var r := rs[i - 1];
      assert r.complete ==> stream[..r.received] == stream;
      CheckResumes(stream[..r.received], r.complete, stream, true, StateAt(stream, rs, i - 1), r.asked, e);
    }
  }

  /** However the stream is cut into arrivals and whatever is asked in between: every verdict but
      "incomplete" is that of parsing the whole stream at once, and every section found is
      where parsing the whole stream finds it. */
  lemma {:induction false} ResumableIsOneShot(stream: seq<Octet>, rs: seq<Request>, i: nat)
    requires History(stream, rs) && i < |rs|
    ensures var (u, v) := Answer(stream, rs, i);
      && (v != Incomplete ==> v == OneShot(stream, rs[i].asked).1)
      && (forall k :: k in u.found ==>
            k in OneShot(stream, ALL).0.found && u.found[k] == OneShot(stream, ALL).0.found[k])
  {
    hide CheckDepth, ParseOk;
    var r := rs[i];
    assert r.complete ==> stream[..r.received] == stream;
    StateIsOk(stream, rs, i);
    StateIsEquivalent(stream, rs, i, r.asked);
    CheckResumes(stream[..r.received], r.complete, stream, true, StateAt(stream, rs, i), r.asked, ALL);
    StateIsOk(stream, rs, i + 1);
    StateIsEquivalent(stream, rs, i + 1, ALL);
    CheckKeeps(stream, true, stream, StateAt(stream, rs, i + 1), ALL);
  }

  /** A verdict other than "incomplete" is never retracted: whoever asks for the same depth again gets it again. */
  lemma {:induction false} VerdictsStay(stream: seq<Octet>, rs: seq<Request>, i: nat, j: nat)
    requires History(stream, rs) && i <= j < |rs| && rs[j].asked == rs[i].asked
    requires Answer(stream, rs, i).1 != Incomplete
    ensures Answer(stream, rs, j).1 == Answer(stream, rs, i).1
  {
    hide CheckDepth;
    VerdictHolds(stream, rs, i, j);
  }

  lemma {:induction false} Arrived(stream: seq<Octet>, rs: seq<Request>, j: nat)
    requires History(stream, rs) && 0 < j < |rs|
    ensures Later(stream[..rs[j - 1].received], rs[j - 1].complete, stream[..rs[j].received], rs[j].complete)
    ensures ParseOk(StateAt(stream, rs, j - 1), stream[..rs[j].received])
  {
    hide CheckDepth, StateAt;
    StateIsOk(stream, rs, j - 1);
  }

  /** The verdict the depth `e` would get at request `j`. */
  function VerdictAt(stream: seq<Octet>, rs: seq<Request>, j: nat, e: nat): Verdict
    requires History(stream, rs) && j < |rs| && e <= ALL
  {
    CheckDepth(stream[..rs[j].received], rs[j].complete, StateAt(stream, rs, j), e).1
  }

  lemma {:induction false} VerdictGoesOn(stream: seq<Octet>, rs: seq<Request>, j: nat, e: nat)
    requires History(stream, rs) && 0 < j < |rs| && e <= ALL
    requires VerdictAt(stream, rs, j - 1, e) != Incomplete
    ensures VerdictAt(stream, rs, j, e) == VerdictAt(stream, rs, j - 1, e)
  {
    var a, b, st := rs[j - 1], rs[j], StateAt(stream, rs, j - 1);
    var s, t := stream[..a.received], stream[..b.received];
    assert StateAt(stream, rs, j) == CheckDepth(s, a.complete, st, a.asked).0;
    hide CheckDepth, ParseOk, Later, StateAt, Answer;
    Arrived(stream, rs, j);
    CheckResumes(s, a.complete, t, b.complete, st, a.asked, e);
    CheckResumes(s, a.complete, t, b.complete, st, e, e);
  }

  /** The verdict request `i` got is what its depth would get at request `j`. */
  lemma {:induction false} VerdictHolds(stream: seq<Octet>, rs: seq<Request>, i: nat, j: nat)
    requires History(stream, rs) && i <= j < |rs| && VerdictAt(stream, rs, i, rs[i].asked) != Incomplete
    ensures VerdictAt(stream, rs, j, rs[i].asked) == VerdictAt(stream, rs, i, rs[i].asked)
    decreases j
  {
    hide VerdictAt;
    if i < j {
      VerdictHolds(stream, rs, i, j - 1);
      VerdictGoesOn(stream, rs, j, rs[i].asked);
    }
  }
}
