/** Messages as lists of sections (AMQP 1.0 Part 3, section 3.2), and what one parse finds in them. */
module Messages {
  import opened Basics
  import opened Amqp
  import opened Grammar
  import opened Sections
  import SectionParser

  /** A section as it is written: its depth, its descriptor, and its value with the type tag. */
  datatype Part = Part(depth: nat, descriptor: seq<Octet>, value: seq<Octet>)

  predicate OfCode(d: seq<Octet>, code: Octet) {
    d == [0x00, 0x53, code] || d == [0x00, 0x80, 0, 0, 0, 0, 0, 0, 0, code]
  }

  /** The descriptors of the section at depth `k`: router annotations, header, delivery annotations, message
      annotations, properties, application properties, body (data, sequence or value), footer. */
  predicate IsDescriptor(k: nat, d: seq<Octet>) {
    match k
    case 1 => d == [0x00, 0x80, 0x53, 0x4B, 0x50, 0x52, 0x2D, 0x2D, 0x52, 0x41]
    case 2 => OfCode(d, 0x70)
    case 3 => OfCode(d, 0x71)
    case 4 => OfCode(d, 0x72)
    case 5 => OfCode(d, 0x73)
    case 6 => OfCode(d, 0x74)
    case 7 => OfCode(d, 0x75) || OfCode(d, 0x76) || OfCode(d, 0x77)
    case 9 => OfCode(d, 0x78)
    case _ => false
  }

  predicate IsList(tag: Octet) {
    tag == 0x45 || tag == 0xC0 || tag == 0xD0
  }

  /** The tags of the primitive types. */
  predicate IsPrimitive(tag: Octet) {
    || 0x40 <= tag <= 0x45 || 0x50 <= tag <= 0x56 || 0x60 <= tag <= 0x61 || 0x70 <= tag <= 0x74 || 0x80 <= tag <= 0x84
    || tag == 0x94 || tag == 0x98 || tag == 0xA0 || tag == 0xA1 || tag == 0xA3 || tag == 0xB0 || tag == 0xB1 || tag == 0xB3
    || tag == 0xC0 || tag == 0xC1 || tag == 0xD0 || tag == 0xD1 || tag == 0xE0 || tag == 0xF0
  }

  /** Annotations, application properties and footer are maps, header and properties lists; a body is data, a
      sequence, or any value. */
  predicate IsPermitted(k: nat, d: seq<Octet>, tag: Octet) {
    if k == 1 || k == 2 || k == 5 then IsList(tag)
    else if k != 7 then tag == 0xC1 || tag == 0xD1
    else if OfCode(d, 0x75) then tag == 0xA0 || tag == 0xB0
    else if OfCode(d, 0x76) then IsList(tag)
    else IsPrimitive(tag)
  }

  const TWO_31 := 0x8000_0000

  predicate PartOk(x: Part) {
    && IsDescriptor(x.depth, x.descriptor) && IsValue(x.value)
    && IsPermitted(x.depth, x.descriptor, x.value[0]) && ContentLength(x.value) < TWO_31
  }

  // ---------------------------------------------------------------- one section

  lemma {:induction false} DescriptorMatches(s: seq<Octet>, p: nat, d: seq<Octet>, i: nat)
    requires i <= |d| && p + |d| < |s| && s[p..p + |d|] == d
    ensures MatchFrom(s, p, d, i) == Match(Location(p, 0, |d|, s[p + |d|]), p + |d|)
    decreases |d| - i
  {
    if i < |d| {
      assert s[p..p + |d|][i] == s[p + i];
      DescriptorMatches(s, p, d, i + 1);
    }
  }

  lemma {:induction false} DescriptorDiffers(s: seq<Octet>, p: nat, d: seq<Octet>, i: nat, j: nat)
    requires i <= j < |d| && p + j < |s| && s[p + j] != d[j]
    requires forall m :: 0 <= m < j ==> s[p + m] == d[m]
    ensures MatchFrom(s, p, d, i) == NoMatch
    decreases j - i
  {
    if i < j {
      DescriptorDiffers(s, p, d, i + 1, j);
    }
  }

  /** The check of a descriptor that is there, with a value behind it. */
  lemma SectionIsFound(s: seq<Octet>, p: nat, d: seq<Octet>, e: seq<Octet>, tags: seq<Octet>)
    requires At(s, p, |s|, d + e) && IsValue(e) && ContentLength(e) < TWO_31 && e[0] in tags
    ensures SectionCheck(s, p, d, tags, false) == Match(Location(p, |e|, |d|, e[0]), p + |d| + |e|)
  {
    AtParts(s, p, |s|, d, e);
    DescriptorMatches(s, p, d, 0);
    var q, a := p + |d|, SizeLength(e[0]);
    Widths(e[0]);
    assert s[q] == s[q..q + |e|][0] == e[0];
    hide MatchFrom, Number, SizeLength, FixedSize, SizeWidth, FixedWidth;
    if a > 0 {
      SliceOfSlice(s, q, |e|, 1, a);
    }
  }

  /** The check of a descriptor that is there, with another type of value behind it. */
  lemma WrongTagIsInvalid(s: seq<Octet>, p: nat, d: seq<Octet>, tags: seq<Octet>)
    requires At(s, p, |s|, d) && p + |d| < |s| && s[p + |d|] !in tags
    ensures SectionCheck(s, p, d, tags, false) == Invalid
  {
    DescriptorMatches(s, p, d, 0);
    hide MatchFrom;
  }

  /** A descriptor and one octet more, at `p`. */
  predicate Begins(s: seq<Octet>, p: nat, d: seq<Octet>) {
    p + |d| < |s| && s[p..p + |d|] == d
  }

  /** Another descriptor stands there. */
  lemma OtherIsNoMatch(s: seq<Octet>, p: nat, d: seq<Octet>, other: seq<Octet>, j: nat)
    requires Begins(s, p, other) && j < |d| && j < |other| && d[..j] == other[..j] && d[j] != other[j]
    ensures forall tags, seen :: SectionCheck(s, p, d, tags, seen) == NoMatch
  {
    assert forall m :: 0 <= m <= j ==> s[p + m] == s[p..p + |other|][m] == other[m];
    assert forall m :: 0 <= m < j ==> d[m] == d[..j][m] == other[..j][m] == other[m];
    DescriptorDiffers(s, p, d, 0, j);
    hide MatchFrom;
  }

  /** Neither form of the code stands there. */
  lemma OtherCode(s: seq<Octet>, p: nat, code: Octet, k: nat, other: seq<Octet>)
    requires IsDescriptor(k, other) && Begins(s, p, other) && !OfCode(other, code)
    ensures forall tags, seen :: TwoForms(s, p, code, tags, seen) == NoMatch
  {
    hide SectionCheck;
    var short := other[1] == 0x53;
    OtherIsNoMatch(s, p, Short(code), other, if short then 2 else 1);
    OtherIsNoMatch(s, p, Sections.Long(code), other, if short then 1 else if k == 1 then 2 else 9);
  }

  /** One of the two forms of the code stands there, with a value. */
  lemma CodeIsFound(s: seq<Octet>, p: nat, code: Octet, d: seq<Octet>, e: seq<Octet>, tags: seq<Octet>)
    requires OfCode(d, code) && At(s, p, |s|, d + e) && IsValue(e) && ContentLength(e) < TWO_31 && e[0] in tags
    ensures TwoForms(s, p, code, tags, false) == Match(Location(p, |e|, |d|, e[0]), p + |d| + |e|)
  {
    SectionIsFound(s, p, d, e, tags);
    if d != Short(code) {
      BeginsAt(s, p, d, e);
      hide SectionCheck, IsValue;
      OtherIsNoMatch(s, p, Short(code), d, 1);
    }
  }

  lemma BeginsAt(s: seq<Octet>, p: nat, d: seq<Octet>, e: seq<Octet>)
    requires At(s, p, |s|, d + e) && e != []
    ensures Begins(s, p, d) && s[p + |d|] == e[0]
  {
    AtParts(s, p, |s|, d, e);
    assert s[p + |d|] == s[p + |d|..p + |d| + |e|][0];
  }

  lemma CodeHasWrongTag(s: seq<Octet>, p: nat, code: Octet, d: seq<Octet>, tags: seq<Octet>)
    requires OfCode(d, code) && Begins(s, p, d) && s[p + |d|] !in tags
    ensures TwoForms(s, p, code, tags, false) == Invalid
  {
    WrongTagIsInvalid(s, p, d, tags);
    if d != Short(code) {
      hide SectionCheck;
      OtherIsNoMatch(s, p, Short(code), d, 1);
    }
  }

  // ---------------------------------------------------------------- one depth

  lemma AnyTag(tag: Octet)
    ensures tag in TAGS_ANY <==> IsPrimitive(tag)
  {
  }

  lemma TagsAre(k: nat, d: seq<Octet>, tag: Octet)
    requires IsDescriptor(k, d)
    ensures k != BODY ==> (tag in TagsOf(k) <==> IsPermitted(k, d, tag))
    ensures OfCode(d, 0x75) ==> (tag in TAGS_BINARY <==> IsPermitted(k, d, tag))
    ensures OfCode(d, 0x76) ==> (tag in TAGS_LIST <==> IsPermitted(k, d, tag))
    ensures OfCode(d, 0x77) ==> (tag in TAGS_ANY <==> IsPermitted(k, d, tag))
  {
    AnyTag(tag);
    hide IsPrimitive, TAGS_ANY;
  }

  /** The value may stand behind the descriptor, and both stand at `p`. */
  predicate Stands(s: seq<Octet>, p: nat, d: seq<Octet>, e: seq<Octet>) {
    e != [] && At(s, p, |s|, d + e) && IsValue(e) && ContentLength(e) < TWO_31
  }

  lemma SettleMatch(s: seq<Octet>, complete: bool, st: ParseState, k: nat, location: Location, next: nat, optional: bool)
    ensures Settle(s, complete, st, k, Match(location, next), optional) ==
            (ParseState(k, next, st.found[k := location]), Ok)
  {
  }

  lemma SettleNoMatch(s: seq<Octet>, complete: bool, st: ParseState, k: nat)
    ensures Settle(s, complete, st, k, NoMatch, true) == (st.(depth := k), Ok)
    ensures Settle(s, complete, st, k, NoMatch, false) == (st, Bad)
    ensures Settle(s, complete, st, k, Invalid, true) == Settle(s, complete, st, k, Invalid, false) == (st, Bad)
  {
  }

  lemma CodeIs(k: nat, d: seq<Octet>)
    requires k != 1 && k != 7 && IsDescriptor(k, d)
    ensures OfCode(d, CodeOf(k))
  {
    hide OfCode;
  }

  lemma CodedFinds(s: seq<Octet>, complete: bool, st: ParseState, k: nat, d: seq<Octet>, e: seq<Octet>)
    requires 2 <= k <= 9 && k != 7 && k != 8 && IsDescriptor(k, d) && Stands(s, st.pos, d, e) && k !in st.found
    requires IsPermitted(k, d, e[0])
    ensures DepthCheck(s, complete, st, k) ==
      (ParseState(k, st.pos + |d| + |e|, st.found[k := Location(st.pos, |e|, |d|, e[0])]), Ok)
  {
    hide DepthCheck, Settle, IsPermitted, TagsOf, IsValue, At, TwoForms, SectionCheck, OfCode, CodeOf, IsDescriptor;
    hide ROUTER_ANNOTATION_LONG, TAGS_ANY, TAGS_BINARY, TAGS_LIST;
    DepthIs(s, complete, st, k);
    SettleMatch(s, complete, st, k, Location(st.pos, |e|, |d|, e[0]), st.pos + |d| + |e|, true);
    TagsAre(k, d, e[0]);
    CodeIs(k, d);
    CodeIsFound(s, st.pos, CodeOf(k), d, e, TagsOf(k));
  }

  lemma DepthIs(s: seq<Octet>, complete: bool, st: ParseState, k: nat)
    requires k != 7 && k != 8
    ensures DepthCheck(s, complete, st, k) ==
            Settle(s, complete, st, k,
                   if k == 1 then SectionCheck(s, st.pos, ROUTER_ANNOTATION_LONG, TagsOf(k), k in st.found)
                   else TwoForms(s, st.pos, CodeOf(k), TagsOf(k), k in st.found), true)
  {
    hide Settle, TagsOf, SectionCheck, BodyCheck, TwoForms, ROUTER_ANNOTATION_LONG, CodeOf;
  }

  lemma RouterDescriptor(d: seq<Octet>)
    requires IsDescriptor(1, d)
    ensures d == ROUTER_ANNOTATION_LONG
  {
  }

  lemma RouterAnnotationsFound(s: seq<Octet>, complete: bool, st: ParseState, d: seq<Octet>, e: seq<Octet>)
    requires IsDescriptor(1, d) && Stands(s, st.pos, d, e) && 1 !in st.found && IsPermitted(1, d, e[0])
    ensures DepthCheck(s, complete, st, 1) ==
      (ParseState(1, st.pos + |d| + |e|, st.found[1 := Location(st.pos, |e|, |d|, e[0])]), Ok)
  {
    hide DepthCheck, Settle, IsPermitted, TagsOf, IsValue, At, SectionCheck, TwoForms, IsDescriptor, OfCode, CodeOf;
    hide ROUTER_ANNOTATION_LONG, TAGS_ANY, TAGS_BINARY, TAGS_LIST;
    DepthIs(s, complete, st, 1);
    RouterDescriptor(d);
    SettleMatch(s, complete, st, 1, Location(st.pos, |e|, |d|, e[0]), st.pos + |d| + |e|, true);
    TagsAre(1, d, e[0]);
    SectionIsFound(s, st.pos, d, e, TagsOf(1));
  }

  /** A section that is there is found: its place, the length of its value and of its descriptor, its tag; and the
      parse goes on behind it. */
  lemma DepthFinds(s: seq<Octet>, complete: bool, st: ParseState, x: Part)
    requires PartOk(x) && At(s, st.pos, |s|, x.descriptor + x.value) && x.depth !in st.found
    ensures DepthCheck(s, complete, st, x.depth) ==
      (ParseState(x.depth, st.pos + |x.descriptor| + |x.value|,
         st.found[x.depth := Location(st.pos, |x.value|, |x.descriptor|, x.value[0])]), Ok)
  {
    hide *;
    var k, d, e := x.depth, x.descriptor, x.value;
    PartFacts(x);
    PartMayStand(s, st.pos, x);
    if k == 1 {
      RouterAnnotationsFound(s, complete, st, d, e);
    } else if k == 7 {
      DepthIsBody(s, complete, st);
      BodyIsFound(s, complete, st, d, e);
    } else {
      CodedFinds(s, complete, st, k, d, e);
    }
  }

  lemma PartMayStand(s: seq<Octet>, p: nat, x: Part)
    requires PartOk(x) && At(s, p, |s|, x.descriptor + x.value)
    ensures x.value != [] && Stands(s, p, x.descriptor, x.value) && IsPermitted(x.depth, x.descriptor, x.value[0])
  {
    hide IsPermitted, IsDescriptor, At, ContentLength;
  }

  lemma DepthIsBody(s: seq<Octet>, complete: bool, st: ParseState)
    ensures DepthCheck(s, complete, st, 7) == BodyCheck(s, complete, st)
  {
    hide BodyCheck;
  }

  lemma BodyIsFound(s: seq<Octet>, complete: bool, st: ParseState, d: seq<Octet>, e: seq<Octet>)
    requires IsDescriptor(7, d) && Stands(s, st.pos, d, e) && 7 !in st.found && IsPermitted(7, d, e[0])
    ensures BodyCheck(s, complete, st) ==
      (ParseState(7, st.pos + |d| + |e|, st.found[7 := Location(st.pos, |e|, |d|, e[0])]), Ok)
  {
    hide Settle, TwoForms, IsValue, At, Begins, IsPermitted, OfCode, TAGS_ANY, TAGS_LIST, TAGS_BINARY;
    TagsAre(7, d, e[0]);
    BeginsAt(s, st.pos, d, e);
    SettleNoMatch(s, complete, st, BODY);
    SettleMatch(s, complete, st, BODY, Location(st.pos, |e|, |d|, e[0]), st.pos + |d| + |e|, false);
    SettleMatch(s, complete, st, BODY, Location(st.pos, |e|, |d|, e[0]), st.pos + |d| + |e|, true);
    if OfCode(d, 0x77) {
      CodeIsFound(s, st.pos, 0x77, d, e, TAGS_ANY);
    } else {
      OtherCode(s, st.pos, 0x77, 7, d);
      if OfCode(d, 0x75) {
        CodeIsFound(s, st.pos, 0x75, d, e, TAGS_BINARY);
      } else {
        OtherCode(s, st.pos, 0x75, 7, d);
        CodeIsFound(s, st.pos, 0x76, d, e, TAGS_LIST);
      }
    }
  }

  /** Where another section stands, one of this depth is passed over. */
  lemma DepthPasses(s: seq<Octet>, complete: bool, st: ParseState, k: nat, j: nat, other: seq<Octet>)
    requires IsDescriptor(j, other) && j != k && k != RAW_BODY && 1 <= k <= ALL && Begins(s, st.pos, other)
    ensures DepthCheck(s, complete, st, k) == (st.(depth := k), Ok)
  {
    if k == 1 {
      OtherIsNoMatch(s, st.pos, ROUTER_ANNOTATION_LONG, other, if other[1] == 0x53 then 1 else 2);
      hide SectionCheck;
    } else if k == BODY {
      OtherCode(s, st.pos, 0x77, j, other);
      OtherCode(s, st.pos, 0x75, j, other);
      OtherCode(s, st.pos, 0x76, j, other);
      hide TwoForms;
    } else {
      OtherCode(s, st.pos, CodeOf(k), j, other);
      hide TwoForms;
    }
  }

  /** A section with a value of a type it may not have is an error; but a body with one is taken for no body, unless it
      is a sequence. */
  lemma DepthRefuses(s: seq<Octet>, complete: bool, st: ParseState, k: nat, d: seq<Octet>)
    requires IsDescriptor(k, d) && Begins(s, st.pos, d) && k !in st.found
    requires !IsPermitted(k, d, s[st.pos + |d|])
    ensures k != 7 || OfCode(d, 0x76) ==> DepthCheck(s, complete, st, k) == (st, Bad)
    ensures k == 7 && !OfCode(d, 0x76) ==> DepthCheck(s, complete, st, k) == (st.(depth := 7), Ok)
  {
    TagsAre(k, d, s[st.pos + |d|]);
    if k == 1 {
      assert At(s, st.pos, |s|, d);
      WrongTagIsInvalid(s, st.pos, d, TagsOf(k));
      hide SectionCheck;
    } else if k == BODY {
      BodyIsRefused(s, complete, st, d);
    } else {
      CodeHasWrongTag(s, st.pos, CodeOf(k), d, TagsOf(k));
      hide TwoForms;
    }
  }

  lemma BodyIsRefused(s: seq<Octet>, complete: bool, st: ParseState, d: seq<Octet>)
    requires IsDescriptor(7, d) && Begins(s, st.pos, d) && 7 !in st.found && !IsPermitted(7, d, s[st.pos + |d|])
    ensures OfCode(d, 0x76) ==> BodyCheck(s, complete, st) == (st, Bad)
    ensures !OfCode(d, 0x76) ==> BodyCheck(s, complete, st) == (st.(depth := 7), Ok)
  {
    hide Settle, TwoForms, IsPermitted, TAGS_ANY, TAGS_LIST, TAGS_BINARY;
    TagsAre(7, d, s[st.pos + |d|]);
    SettleNoMatch(s, complete, st, BODY);
    if OfCode(d, 0x77) {
      CodeHasWrongTag(s, st.pos, 0x77, d, TAGS_ANY);
      OtherCode(s, st.pos, 0x75, 7, d);
      OtherCode(s, st.pos, 0x76, 7, d);
    } else if OfCode(d, 0x75) {
      OtherCode(s, st.pos, 0x77, 7, d);
      CodeHasWrongTag(s, st.pos, 0x75, d, TAGS_BINARY);
      OtherCode(s, st.pos, 0x76, 7, d);
    } else {
      OtherCode(s, st.pos, 0x77, 7, d);
      OtherCode(s, st.pos, 0x75, 7, d);
      CodeHasWrongTag(s, st.pos, 0x76, d, TAGS_LIST);
    }
  }

  /** The same with the stream taken apart; where the decoder accepts the value, the parse goes on where the decoder
      ends. */
  lemma FoundInPlace(a: seq<Octet>, x: Part, b: seq<Octet>, complete: bool, st: ParseState)
    requires PartOk(x) && st.pos == |a| && x.depth !in st.found
    ensures var s := a + (x.descriptor + x.value) + b; var p := |a| + |x.descriptor|;
      && DepthCheck(s, complete, st, x.depth) ==
         (ParseState(x.depth, p + |x.value|,
            st.found[x.depth := Location(|a|, |x.value|, |x.descriptor|, x.value[0])]), Ok)
      && (Parse(s, p, |s|).0.error == NoError ==> Parse(s, p, |s|).1 == p + |x.value|)
  {
    hide DepthCheck, Parse, IsValue, IsPermitted, IsDescriptor;
    var s, d, e := a + (x.descriptor + x.value) + b, x.descriptor, x.value;
    InTheMiddle(a, d + e, b, []);
    assert a + (d + e) + b + [] == s;
    DepthFinds(s, complete, st, x);
    AtParts(s, |a|, |s|, d, e);
    if Parse(s, |a| + |d|, |s|).0.error == NoError {
      ValueEnds(s, |a| + |d|, e);
    }
  }

  // ---------------------------------------------------------------- sections cut off

  /** The stream ends inside the section at `p`, after `n` of its octets. */
  predicate CutAfter(s: seq<Octet>, p: nat, x: Part, n: nat) {
    0 < n < |x.descriptor| + |x.value| && p + n == |s| && s[p..] == (x.descriptor + x.value)[..n]
  }

  lemma {:induction false} DescriptorWaits(s: seq<Octet>, p: nat, d: seq<Octet>, i: nat)
    requires p + i < |s| <= p + |d| && s[p..] == d[..|s| - p]
    ensures MatchFrom(s, p, d, i) == NeedMore
    decreases |s| - i
  {
    assert s[p + i] == s[p..][i] == d[i];
    if p + i + 1 < |s| {
      DescriptorWaits(s, p, d, i + 1);
    }
  }

  lemma CutDescriptor(s: seq<Octet>, p: nat, x: Part, n: nat)
    requires CutAfter(s, p, x, n)
    ensures n <= |x.descriptor| ==> s[p..] == x.descriptor[..n]
    ensures n > |x.descriptor| ==>
      s[p..p + |x.descriptor|] == x.descriptor && s[p + |x.descriptor|..] == x.value[..n - |x.descriptor|]
  {
    var d, e := x.descriptor, x.value;
    if n <= |d| {
      assert (d + e)[..n] == d[..n];
    } else {
      assert s[p..][..|d|] == s[p..p + |d|] && s[p..][|d|..] == s[p + |d|..];
      assert (d + e)[..n][..|d|] == d && (d + e)[..n][|d|..] == e[..n - |d|];
    }
  }

  lemma CutSection(s: seq<Octet>, p: nat, x: Part, n: nat, tags: seq<Octet>)
    requires PartOk(x) && CutAfter(s, p, x, n) && x.value[0] in tags
    ensures SectionCheck(s, p, x.descriptor, tags, false) == NeedMore
  {
    var d, e := x.descriptor, x.value;
    CutDescriptor(s, p, x, n);
    if n <= |d| {
      DescriptorWaits(s, p, d, 0);
    } else {
      DescriptorMatches(s, p, d, 0);
      CutValue(s, p, x, n, tags);
    }
  }

  lemma CutSlice(s: seq<Octet>, q: nat, e: seq<Octet>, m: nat, a: nat)
    requires q <= |s| && m <= |e| && s[q..] == e[..m] && 1 + a <= m
    ensures s[q + 1..q + 1 + a] == e[1..1 + a]
  {
    var x, y := s[q + 1..q + 1 + a], e[1..1 + a];
    forall i | 0 <= i < a ensures x[i] == y[i] {
      assert x[i] == s[q..][1 + i] && y[i] == e[..m][1 + i];
    }
  }

  lemma CutValue(s: seq<Octet>, p: nat, x: Part, n: nat, tags: seq<Octet>)
    requires PartOk(x) && |x.descriptor| < n < |x.descriptor| + |x.value| && p + n == |s| && x.value[0] in tags
    requires s[p + |x.descriptor|..] == x.value[..n - |x.descriptor|]
    requires MatchFrom(s, p, x.descriptor, 0) ==
             Match(Location(p, 0, |x.descriptor|, s[p + |x.descriptor|]), p + |x.descriptor|)
    ensures SectionCheck(s, p, x.descriptor, tags, false) == NeedMore
  {
    var e, q := x.value, p + |x.descriptor|;
    var a := SizeLength(e[0]);
    Widths(e[0]);
    hide MatchFrom, Number, IsPermitted, IsDescriptor, SizeLength, FixedSize, SizeWidth, FixedWidth;
    assert s[q] == s[q..][0] == e[0];
    if 0 < a && q + 1 + a <= |s| {
      CutSlice(s, q, e, n - |x.descriptor|, a);
    }
  }

  lemma CutForms(s: seq<Octet>, p: nat, code: Octet, x: Part, n: nat, tags: seq<Octet>)
    requires PartOk(x) && OfCode(x.descriptor, code) && CutAfter(s, p, x, n) && x.value[0] in tags
    ensures TwoForms(s, p, code, tags, false) == NeedMore
  {
    CutSection(s, p, x, n, tags);
    hide SectionCheck, PartOk;
    if x.descriptor != Short(code) {
      CutOtherForm(s, p, Short(code), x, n, tags);
    }
  }

  /** The other form of a code: with one octet both may still come. */
  lemma CutOtherForm(s: seq<Octet>, p: nat, d: seq<Octet>, x: Part, n: nat, tags: seq<Octet>)
    requires CutAfter(s, p, x, n) && |d| > 1 && |x.descriptor| > 1 && d[0] == x.descriptor[0] && d[1] != x.descriptor[1]
    ensures SectionCheck(s, p, d, tags, false) == if n == 1 then NeedMore else NoMatch
  {
    CutDescriptor(s, p, x, n);
    assert s[p] == s[p..][0] == x.descriptor[0];
    if n == 1 {
      assert s[p..] == d[..1];
      DescriptorWaits(s, p, d, 0);
    } else {
      assert s[p + 1] == s[p..][1] == x.descriptor[1];
      DescriptorDiffers(s, p, d, 0, 1);
    }
    hide MatchFrom;
  }

  /** A body cut off, looked at as one of another kind. */
  lemma CutOtherBody(s: seq<Octet>, p: nat, code: Octet, x: Part, n: nat, tags: seq<Octet>)
    requires IsDescriptor(7, x.descriptor) && !OfCode(x.descriptor, code) && CutAfter(s, p, x, n)
    ensures TwoForms(s, p, code, tags, false) == if n < |x.descriptor| then NeedMore else NoMatch
  {
    var d := x.descriptor;
    var short := d[1] == 0x53;
    var same, other := if short then Short(code) else Sections.Long(code), if short then Sections.Long(code) else Short(code);
    CutOtherForm(s, p, other, x, n, tags);
    assert SectionCheck(s, p, same, tags, false) == if n < |d| then NeedMore else NoMatch by {
      CutSameForm(s, p, same, x, n, tags);
    }
    hide SectionCheck;
  }

  lemma CutSameForm(s: seq<Octet>, p: nat, d: seq<Octet>, x: Part, n: nat, tags: seq<Octet>)
    requires CutAfter(s, p, x, n) && |d| == |x.descriptor| > 0
    requires d[..|d| - 1] == x.descriptor[..|d| - 1] && d[|d| - 1] != x.descriptor[|d| - 1]
    ensures SectionCheck(s, p, d, tags, false) == if n < |d| then NeedMore else NoMatch
  {
    CutDescriptor(s, p, x, n);
    if n < |d| {
      assert d[..n] == d[..|d| - 1][..n] == x.descriptor[..|d| - 1][..n] == x.descriptor[..n];
      DescriptorWaits(s, p, d, 0);
    } else {
      var o := x.descriptor;
      assert s[p..p + |d|] == o;
      assert forall m :: 0 <= m < |d| ==> s[p + m] == s[p..p + |d|][m] == o[m];
      assert forall m :: 0 <= m < |d| - 1 ==> d[m] == d[..|d| - 1][m] == o[..|d| - 1][m] == o[m];
      DescriptorDiffers(s, p, d, 0, |d| - 1);
    }
    hide MatchFrom;
  }

  /** A section cut off is waited for. If no more octets will come it is an error; but a body that is data or a value
      is then taken for no body once its descriptor is there. */
  lemma DepthWaits(s: seq<Octet>, complete: bool, st: ParseState, x: Part, n: nat)
    requires PartOk(x) && CutAfter(s, st.pos, x, n) && x.depth !in st.found
    ensures var passes := x.depth == 7 && !OfCode(x.descriptor, 0x76) && n >= |x.descriptor|;
      DepthCheck(s, complete, st, x.depth) ==
        if !complete then (st, Incomplete) else if passes then (st.(depth := 7), Ok) else (st, Bad)
  {
    var k, d := x.depth, x.descriptor;
    PartFacts(x);
    TagsAre(k, d, x.value[0]);
    hide TwoForms, SectionCheck;
    if k == 1 {
      CutSection(s, st.pos, x, n, TagsOf(k));
    } else if k == BODY {
      BodyWaits(s, complete, st, x, n);
    } else {
      CodeIs(k, d);
      CutForms(s, st.pos, CodeOf(k), x, n, TagsOf(k));
    }
  }

  lemma BodyWaits(s: seq<Octet>, complete: bool, st: ParseState, x: Part, n: nat)
    requires x.depth == 7 && PartOk(x) && CutAfter(s, st.pos, x, n) && 7 !in st.found
    ensures var passes := !OfCode(x.descriptor, 0x76) && n >= |x.descriptor|;
      BodyCheck(s, complete, st) ==
        if !complete then (st, Incomplete) else if passes then (st.(depth := 7), Ok) else (st, Bad)
  {
    var d, p := x.descriptor, st.pos;
    PartFacts(x);
    TagsAre(7, d, x.value[0]);
    hide TwoForms, OfCode, TAGS_ANY, TAGS_LIST, TAGS_BINARY, IsPermitted;
    if OfCode(d, 0x77) {
      CutForms(s, p, 0x77, x, n, TAGS_ANY);
    } else {
      CutOtherBody(s, p, 0x77, x, n, TAGS_ANY);
    }
    if OfCode(d, 0x75) {
      CutForms(s, p, 0x75, x, n, TAGS_BINARY);
    } else {
      CutOtherBody(s, p, 0x75, x, n, TAGS_BINARY);
    }
    if OfCode(d, 0x76) {
      CutForms(s, p, 0x76, x, n, TAGS_LIST);
    } else {
      CutOtherBody(s, p, 0x76, x, n, TAGS_LIST);
    }
  }

  // ---------------------------------------------------------------- sections of 2^31 octets and more

  /** The length of a section is taken as a signed number, so one of 2^31 octets or more is found but not passed over. */
  lemma HugeIsNotSkipped(s: seq<Octet>, p: nat, d: seq<Octet>, e: seq<Octet>, tags: seq<Octet>)
    requires At(s, p, |s|, d + e) && IsValue(e) && ContentLength(e) >= TWO_31 && e[0] in tags
    ensures SectionCheck(s, p, d, tags, false) == Match(Location(p, |e| % TWO_32, |d|, e[0]), p + |d| + 5)
    ensures p + |d| + 5 < p + |d| + |e|
  {
    AtParts(s, p, |s|, d, e);
    DescriptorMatches(s, p, d, 0);
    var q, a := p + |d|, SizeLength(e[0]);
    Widths(e[0]);
    assert s[q] == s[q..q + |e|][0] == e[0];
    assert a == 4 by {
      Powers();
      NumberBelow(e[1..1 + a]);
    }
    hide MatchFrom, Number;
    SliceOfSlice(s, q, |e|, 1, a);
  }

  /** Data that claims 2^31 octets is found when there is one. */
  lemma HugeClaim()
    ensures DepthCheck([0x00, 0x53, 0x75, 0xB0, 0x80, 0, 0, 0, 0x41], true, START, 7) ==
            (ParseState(7, 8, map[7 := Location(0, 0x8000_0005, 3, 0xB0)]), Ok)
  {
    var s: seq<Octet> := [0x00, 0x53, 0x75, 0xB0, 0x80, 0, 0, 0, 0x41];
    var d: seq<Octet> := [0x00, 0x53, 0x75];
    assert s[0..3] == d;
    DescriptorMatches(s, 0, d, 0);
    assert NumberAt(s, 4, 4) == 0x8000_0000 by {
      var a: seq<Octet>, b: seq<Octet>, c: seq<Octet> := [0x80, 0], [0x80, 0, 0], [0x80, 0, 0, 0];
      OneOctet(0x80);
      assert a[..1] == [0x80] && b[..2] == a && c[..3] == b;
      assert Number(a) == 0x8000 && Number(b) == 0x80_0000 && Number(c) == 0x8000_0000;
      assert s[4..4 + 4] == c;
    }
    assert SectionCheck(s, 0, d, TAGS_BINARY, false) == Match(Location(0, 0x8000_0005, 3, 0xB0), 8);
    hide SectionCheck, NumberAt;
    OtherCode(s, 0, 0x77, 7, d);
  }

  // ---------------------------------------------------------------- whole messages

  function Written(x: Part): seq<Octet> {
    x.descriptor + x.value
  }

  function WrittenAll(xs: seq<Part>): seq<Octet> {
    if xs == [] then [] else WrittenAll(xs[..|xs| - 1]) + Written(xs[|xs| - 1])
  }

  /** Where section `i` starts. */
  function StartOf(xs: seq<Part>, i: nat): nat
    requires i <= |xs|
  {
    |WrittenAll(xs[..i])|
  }

  /** The sections come in order, each at most once. */
  ghost predicate InOrder(xs: seq<Part>) {
    && (forall i :: 0 <= i < |xs| ==> PartOk(xs[i]))
    && (forall i, j :: 0 <= i < j < |xs| ==> xs[i].depth < xs[j].depth)
  }

  /** Nothing that the parse would take for a further section: nothing at all, anything behind a footer, or a section
      that is out of order, such as a second body. */
  ghost predicate EndsThere(xs: seq<Part>, rest: seq<Octet>) {
    || rest == []
    || (xs != [] && xs[|xs| - 1].depth == 9)
    || (xs != [] && exists j: nat, d :: IsDescriptor(j, d) && j <= xs[|xs| - 1].depth && Begins(rest, 0, d))
  }

  /** Where the sections in front of the footer end. */
  function BodyEnd(xs: seq<Part>): nat {
    StartOf(xs, if xs != [] && xs[|xs| - 1].depth == 9 then |xs| - 1 else |xs|)
  }

  /** What was found is exactly the sections of depths below `k`, each where it stands, and from depth 8 on where the
      raw body begins. */
  ghost predicate Finds(xs: seq<Part>, k: nat, found: map<nat, Location>) {
    && (forall j :: j in found <==> (j == 8 && j < k) || exists i :: 0 <= i < |xs| && xs[i].depth == j < k)
    && (forall i :: 0 <= i < |xs| && xs[i].depth < k && xs[i].value != [] ==>
          xs[i].depth in found &&
          found[xs[i].depth] == Location(StartOf(xs, i), |xs[i].value|, |xs[i].descriptor|, xs[i].value[0]))
    && (8 < k ==> 8 in found && found[8] == Location(BodyEnd(xs), 0, 0, 0))
  }

  lemma {:induction false} WrittenConcat(xs: seq<Part>, ys: seq<Part>)
    ensures WrittenAll(xs + ys) == WrittenAll(xs) + WrittenAll(ys)
    decreases |ys|
  {
    if ys == [] {
      assert xs + ys == xs;
    } else {
      var front, last := ys[..|ys| - 1], ys[|ys| - 1];
      assert (xs + ys)[..|xs + ys| - 1] == xs + front;
      WrittenConcat(xs, front);
    }
  }

  /** Section `i` stands where it starts. */
  lemma PartStands(xs: seq<Part>, rest: seq<Octet>, i: nat)
    requires i < |xs|
    ensures var s := WrittenAll(xs) + rest; At(s, StartOf(xs, i), |s|, Written(xs[i]))
    ensures StartOf(xs, i + 1) == StartOf(xs, i) + |Written(xs[i])|
  {
    var a, x, b := WrittenAll(xs[..i]), Written(xs[i]), WrittenAll(xs[i + 1..]);
    assert xs[..i + 1][..i] == xs[..i] && xs[..i + 1][i] == xs[i];
    assert WrittenAll(xs[..i + 1]) == a + x;
    WrittenConcat(xs[..i + 1], xs[i + 1..]);
    assert xs[..i + 1] + xs[i + 1..] == xs;
    InTheMiddle(a, x, b, rest);
  }

  lemma InTheMiddle(a: seq<Octet>, x: seq<Octet>, b: seq<Octet>, rest: seq<Octet>)
    ensures var s := a + x + b + rest; At(s, |a|, |s|, x)
  {
    var s := a + x + b + rest;
    assert s[|a|..|a| + |x|] == x;
  }

  lemma PartFacts(x: Part)
    requires PartOk(x)
    ensures x.value != [] && x.descriptor != [] && 1 <= x.depth <= 9 && x.depth != 8
    ensures IsDescriptor(x.depth, x.descriptor)
  {
    hide IsPermitted, ContentLength;
  }

  /** The parse of the rest, when the first `i` sections are those of depths below `k`. */
  lemma {:induction false} FromFinds(xs: seq<Part>, rest: seq<Octet>, st: ParseState, k: nat, asked: nat, i: nat)
    requires InOrder(xs) && EndsThere(xs, rest) && 1 <= k <= asked <= ALL && i <= |xs|
    requires forall j :: 0 <= j < |xs| ==> (j < i <==> xs[j].depth < k)
    requires st.pos == StartOf(xs, i) && Finds(xs, k, st.found)
    ensures var (u, v) := CheckFrom(WrittenAll(xs) + rest, true, st, k, asked);
      v == Ok && Finds(xs, asked + 1, u.found)
    decreases asked - k
  {
    hide Finds, DepthCheck, EndsThere, PartOk, StartOf, WrittenAll;
    var here := i < |xs| && xs[i].depth == k;
    OneDepth(xs, rest, st, k, i, here);
    if k < asked {
      var (t, v) := DepthCheck(WrittenAll(xs) + rest, true, st, k);
      FromFinds(xs, rest, t, k + 1, asked, if here then i + 1 else i);
    }
  }

  /** One depth more. */
  lemma OneDepth(xs: seq<Part>, rest: seq<Octet>, st: ParseState, k: nat, i: nat, here: bool)
    requires InOrder(xs) && EndsThere(xs, rest) && 1 <= k <= ALL && i <= |xs|
    requires forall j :: 0 <= j < |xs| ==> (j < i <==> xs[j].depth < k)
    requires here <==> i < |xs| && xs[i].depth == k
    requires st.pos == StartOf(xs, i) && Finds(xs, k, st.found)
    ensures var (t, v) := DepthCheck(WrittenAll(xs) + rest, true, st, k);
      v == Ok && t.pos == StartOf(xs, if here then i + 1 else i) && Finds(xs, k + 1, t.found)
  {
    hide DepthCheck, EndsThere, StartOf, WrittenAll, PartOk, BodyEnd;
    var s := WrittenAll(xs) + rest;
    if here {
      PartStands(xs, rest, i);
      DepthFinds(s, true, st, xs[i]);
      FindsMore(xs, k, i, st.found);
    } else if k == RAW_BODY {
      RawBodyFound(xs, rest, st, i);
    } else {
      DepthMisses(xs, rest, st, k, i);
      FindsNoMore(xs, k, st.found);
    }
  }

  lemma FindsMore(xs: seq<Part>, k: nat, i: nat, found: map<nat, Location>)
    requires InOrder(xs) && i < |xs| && xs[i].depth == k && Finds(xs, k, found)
    ensures xs[i].value != [] && k !in found
    ensures Finds(xs, k + 1, found[k := Location(StartOf(xs, i), |xs[i].value|, |xs[i].descriptor|, xs[i].value[0])])
  {
    hide PartOk, StartOf, BodyEnd;
    PartFacts(xs[i]);
  }

  lemma FindsNoMore(xs: seq<Part>, k: nat, found: map<nat, Location>)
    requires Finds(xs, k, found) && k != 8 && forall j :: 0 <= j < |xs| ==> xs[j].depth != k
    ensures Finds(xs, k + 1, found)
  {
    hide StartOf, BodyEnd;
  }

  lemma RawBodyFound(xs: seq<Part>, rest: seq<Octet>, st: ParseState, i: nat)
    requires InOrder(xs) && i <= |xs| && forall j :: 0 <= j < |xs| ==> (j < i <==> xs[j].depth < 8)
    requires st.pos == StartOf(xs, i) && Finds(xs, 8, st.found)
    ensures var (t, v) := DepthCheck(WrittenAll(xs) + rest, true, st, 8);
      v == Ok && t.pos == st.pos && Finds(xs, 9, t.found)
  {
    hide PartOk, StartOf, WrittenAll, Finds, BodyCheck, Settle, TwoForms, SectionCheck;
    RawBodyBegins(xs, i);
    FindsRaw(xs, st.found);
  }

  lemma RawBodyBegins(xs: seq<Part>, i: nat)
    requires InOrder(xs) && i <= |xs| && forall j :: 0 <= j < |xs| ==> (j < i <==> xs[j].depth < 8)
    ensures BodyEnd(xs) == StartOf(xs, i)
  {
    hide PartOk, StartOf;
    if xs != [] {
      PartFacts(xs[|xs| - 1]);
      if i < |xs| {
        PartFacts(xs[i]);
      }
    }
  }

  lemma FindsRaw(xs: seq<Part>, found: map<nat, Location>)
    requires Finds(xs, 8, found) && InOrder(xs)
    ensures Finds(xs, 9, found[8 := Location(BodyEnd(xs), 0, 0, 0)])
  {
    hide PartOk, StartOf, BodyEnd;
    forall i | 0 <= i < |xs| ensures xs[i].depth != 8 {
      PartFacts(xs[i]);
    }
  }

  lemma BeginsBehind(a: seq<Octet>, rest: seq<Octet>, d: seq<Octet>)
    requires Begins(rest, 0, d)
    ensures Begins(a + rest, |a|, d)
  {
    assert (a + rest)[|a|..|a| + |d|] == rest[0..|d|];
  }

  /** A section that is not there is passed over. */
  lemma DepthMisses(xs: seq<Part>, rest: seq<Octet>, st: ParseState, k: nat, i: nat)
    requires InOrder(xs) && EndsThere(xs, rest) && 1 <= k <= ALL && k != RAW_BODY && i <= |xs|
    requires forall j :: 0 <= j < |xs| ==> (j < i <==> xs[j].depth < k)
    requires i < |xs| ==> xs[i].depth != k
    requires st.pos == StartOf(xs, i)
    ensures var (t, v) := DepthCheck(WrittenAll(xs) + rest, true, st, k);
      v == Ok && t.pos == st.pos && t.found == st.found
  {
    var s := WrittenAll(xs) + rest;
    hide DepthCheck, PartOk, WrittenAll, At, Begins, IsDescriptor;
    if i < |xs| {
      PartFacts(xs[i]);
      PartStands(xs, rest, i);
      BeginsAt(s, st.pos, xs[i].descriptor, xs[i].value);
      DepthPasses(s, true, st, k, xs[i].depth, xs[i].descriptor);
    } else {
      assert xs[..i] == xs;
      if rest == [] {
        DepthAtEnd(s, st, k);
      } else {
        assert xs[|xs| - 1].depth < k;
        var j: nat, d :| IsDescriptor(j, d) && j <= xs[|xs| - 1].depth && Begins(rest, 0, d);
        BeginsBehind(WrittenAll(xs), rest, d);
        DepthPasses(s, true, st, k, j, d);
      }
    }
  }

  /** The parse of a message that is there to the end: for every list of sections in order, each with a descriptor of
      its depth and one value of a permitted type, and for every depth asked for, exactly the sections up to that depth
      are found, each exactly where it stands. */
  lemma OneShotFinds(xs: seq<Part>, rest: seq<Octet>, asked: nat)
    requires InOrder(xs) && EndsThere(xs, rest) && xs != [] && 1 <= asked <= ALL
    ensures var (u, v) := OneShot(WrittenAll(xs) + rest, asked);
      v == Ok && Finds(xs, asked + 1, u.found)
  {
    hide CheckFrom, EndsThere, PartOk;
    assert StartOf(xs, 0) == 0;
    hide WrittenAll, StartOf, BodyEnd;
    PartFacts(xs[0]);
    PartStands(xs, rest, 0);
    assert WrittenAll(xs) + rest != [];
    FromFinds(xs, rest, START, 1, asked, 0);
  }

  /** A message that arrives in buffers of any sizes, with any depths asked for on the way: once all of it is there and
      asked for, the parser has found exactly its sections. */
  method ParseMessage(xs: seq<Part>, rest: seq<Octet>, rs: seq<Request>, size: nat -> nat)
    returns (verdicts: seq<Verdict>, p: SectionParser.Parser)
    requires InOrder(xs) && EndsThere(xs, rest) && xs != [] && History(WrittenAll(xs) + rest, rs)
    requires rs != [] && rs[|rs| - 1].complete && rs[|rs| - 1].asked == ALL
    ensures p.Valid() && |verdicts| == |rs| && verdicts[|rs| - 1] == Ok
    ensures Finds(xs, 10, p.Parsed().found)
    ensures forall i :: 0 <= i < |rs| && rs[i].asked > 0 ==> verdicts[i] == Ok || verdicts[i] == Incomplete
  {
    hide OneShot, InOrder, EndsThere, WrittenAll, Finds;
    verdicts, p := SectionParser.ParseHistory(WrittenAll(xs) + rest, rs, size);
    OneShotFinds(xs, rest, ALL);
    forall i | 0 <= i < |rs| && rs[i].asked > 0 ensures verdicts[i] == Ok || verdicts[i] == Incomplete {
      OneShotFinds(xs, rest, rs[i].asked);
    }
  }
}
