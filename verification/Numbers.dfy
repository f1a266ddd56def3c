/** The conversions of a decoded field to a number or a boolean, and what they make of the field's
    value (AMQP 1.0 Part 1, section 1.6). */
module Numbers {
  import opened Basics
  import opened Options
  import opened Amqp

  /** What the C library reads at the front of a text: a parameter. */
  datatype Scanner = Scanner(unsigned: seq<Octet> -> Option<nat>, signed: seq<Octet> -> Option<int>)

  predicate IsText(tag: Octet) {
    tag == 0xA1 || tag == 0xB1 || tag == 0xA3 || tag == 0xB3
  }

  predicate IsUnsigned(tag: Octet) {
    tag == 0x50 || tag == 0x52 || tag == 0x53 || tag == 0x60 || tag == 0x70 || tag == 0x80
  }

  predicate IsSigned(tag: Octet) {
    tag == 0x51 || tag == 0x54 || tag == 0x55 || tag == 0x61 || tag == 0x71 || tag == 0x81
  }

  const BOOLEAN: Octet := 0x56
  const TIMESTAMP: Octet := 0x83

  /** A field that was decoded has as many octets as its tag says. */
  predicate Whole(tag: Octet, body: seq<Octet>) {
    tag / 16 < 0xA ==> |body| == FixedSize(tag)
  }

  function TwoOctets(body: seq<Octet>): nat
    requires |body| == 2
  {
    var high: nat := body[0];
    256 * high + body[1]
  }

  /** Two words, the high one first. */
  function TwoWords(body: seq<Octet>): nat
    requires |body| == 8
  {
    NumberAt(body, 0, 4) * TWO_32 + NumberAt(body, 4, 4)
  }

  // ---------------------------------------------------------------- the conversions

  /** `None` where the conversion puts an error on the field. */
  function AsULong(tag: Octet, body: seq<Octet>, scan: Scanner): Option<nat>
    requires Whole(tag, body)
    decreases if IsSigned(tag) then 1 else 0
  {
    if tag == 0x80 || tag == TIMESTAMP then Some(TwoWords(body))
    else if tag == 0x70 then Some(NumberAt(body, 0, 4))
    else if tag == 0x60 then Some(TwoOctets(body))
    else if tag == BOOLEAN || tag == 0x50 || tag == 0x52 || tag == 0x53 then Some(body[0])
    else if tag == 0x41 then Some(1)
    else if tag == 0x42 || tag == 0x43 || tag == 0x44 then Some(0)
    else if IsText(tag) then scan.unsigned(body)
    else if IsSigned(tag) then
      var x := AsLong(tag, body, scan);
      if x.Some? && x.value >= 0 then Some(x.value) else None
    else None
  }

  function AsLong(tag: Octet, body: seq<Octet>, scan: Scanner): Option<int>
    requires Whole(tag, body)
    decreases if IsUnsigned(tag) then 1 else 0
  {
    if tag == 0x81 then Some(Signed(TwoWords(body), TWO_64))
    else if tag == 0x71 then Some(Signed(NumberAt(body, 0, 4), TWO_32))
    else if tag == 0x61 then Some(Signed(TwoOctets(body), 0x1_0000))
    else if tag == 0x51 || tag == BOOLEAN || tag == 0x55 || tag == 0x54 then Some(Signed(body[0], 256))
    else if tag == 0x41 then Some(1)
    else if tag == 0x42 || tag == 0x43 || tag == 0x44 then Some(0)
    else if IsText(tag) then scan.signed(body)
    else if IsUnsigned(tag) then
      var x := AsULong(tag, body, scan);
      var max := if tag == 0x60 then 0x7FFF else if tag == 0x70 then 0x7FFF_FFFF
                 else if tag == 0x80 then 0x7FFF_FFFF_FFFF_FFFF else 0x7F;
      if x.Some? && x.value <= max then Some(x.value) else None
    else None
  }

  function AsUInt(tag: Octet, body: seq<Octet>, scan: Scanner): Option<nat>
    requires Whole(tag, body)
  {
    var x := AsULong(tag, body, scan);
    if x.Some? && x.value <= 0xFFFF_FFFF then x else None
  }

  function AsInt(tag: Octet, body: seq<Octet>, scan: Scanner): Option<int>
    requires Whole(tag, body)
  {
    var x := AsLong(tag, body, scan);
    if x.Some? && -0x8000_0000 <= x.value <= 0x7FFF_FFFF then x else None
  }

  function AsBool(tag: Octet, body: seq<Octet>): bool
    requires Whole(tag, body)
  {
    if tag == 0x51 || tag == BOOLEAN then body[0] != 0 else tag == 0x41
  }

  // ---------------------------------------------------------------- the number in a field

  /** The number that a field stands for, if its type is one of numbers, times or truth values. */
  function Meaning(tag: Octet, body: seq<Octet>): Option<int> {
    if tag == 0x41 then Some(1)
    else if tag == 0x42 || tag == 0x43 || tag == 0x44 then Some(0)
    else if tag == BOOLEAN || IsUnsigned(tag) then Some(Number(body))
    else if tag == TIMESTAMP || IsSigned(tag) then Some(Signed(Number(body), Pow256(|body|)))
    else None
  }

  lemma Scaled(x: nat, y: nat)
    ensures 256 * (x * y) == x * (256 * y)
  {
  }

  lemma {:induction false} NumberSplits(a: seq<Octet>, b: seq<Octet>)
    ensures Number(a + b) == Number(a) * Pow256(|b|) + Number(b)
    decreases |b|
  {
    if b == [] {
      assert a + b == a;
    } else {
      var front, last := b[..|b| - 1], b[|b| - 1];
      NumberSplits(a, front);
      assert (a + b)[..|a + b| - 1] == a + front && (a + b)[|a + b| - 1] == last;
      Scaled(Number(a), Pow256(|front|));
    }
  }

  /** The conversions put a number together from words and octets as the encoding has it. */
  lemma WordsAreNumber(body: seq<Octet>)
    ensures |body| == 8 ==> TwoWords(body) == Number(body)
    ensures |body| == 4 ==> NumberAt(body, 0, 4) == Number(body)
    ensures |body| == 2 ==> TwoOctets(body) == Number(body)
    ensures |body| == 1 ==> body[0] == Number(body)
  {
    if |body| == 8 {
      Powers();
      NumberSplits(body[..4], body[4..]);
      assert body[..4] + body[4..] == body && body[0..4] == body[..4] && body[4..8] == body[4..];
    } else if |body| == 4 {
      assert body[0..4] == body;
    } else if |body| == 2 {
      OneOctet(body[0]);
      assert body[..1] == [body[0]];
    } else if |body| == 1 {
      OneOctet(body[0]);
      assert body == [body[0]];
    }
  }

  /** The range of an encoding's width. */
  lemma Ranges(tag: Octet, body: seq<Octet>)
    requires Whole(tag, body) && tag / 16 < 0xA
    ensures tag / 16 == 5 ==> |body| == 1 && Pow256(|body|) == 256
    ensures tag / 16 == 6 ==> |body| == 2 && Pow256(|body|) == 0x1_0000
    ensures tag / 16 == 7 ==> |body| == 4 && Pow256(|body|) == TWO_32
    ensures tag / 16 == 8 ==> |body| == 8 && Pow256(|body|) == TWO_64
    ensures Number(body) < Pow256(|body|)
  {
    Powers();
    assert Pow256(2) == 0x1_0000;
    NumberBelow(body);
  }

  /** Reading a field as unsigned gives the number in it if that is not negative, and is refused
      otherwise; a time before the epoch wraps round instead. */
  lemma ULongExact(tag: Octet, body: seq<Octet>, scan: Scanner)
    requires Whole(tag, body) && !IsText(tag)
    ensures AsULong(tag, body, scan) ==
            match Meaning(tag, body)
            case None => None
            case Some(x) => if tag == TIMESTAMP then Some(x % TWO_64) else if x >= 0 then Some(x) else None
  {
    hide Number, Pow256, NumberAt, TwoWords;
    WordsAreNumber(body);
    if tag / 16 < 0xA {
      Ranges(tag, body);
    }
  }

  /** Reading a field as signed gives the number in it, except that a time is refused, a truth
      value is taken as a signed octet, and an unsigned number is refused from half the range of
      its encoding on. */
  lemma LongExact(tag: Octet, body: seq<Octet>, scan: Scanner)
    requires Whole(tag, body) && !IsText(tag)
    ensures AsLong(tag, body, scan) ==
            match Meaning(tag, body)
            case None => None
            case Some(x) =>
              if tag == TIMESTAMP || (IsUnsigned(tag) && 2 * x >= Pow256(|body|)) then None
              else if tag == BOOLEAN then Some(Signed(x, 256))
              else Some(x)
  {
    hide Number, Pow256, NumberAt, TwoWords;
    WordsAreNumber(body);
    if tag / 16 < 0xA {
      Ranges(tag, body);
    }
  }

  // ---------------------------------------------------------------- encoded values

  /** The number in a value. */
  function NumberIn(v: Value): Option<int> {
    match v
    case Bool(b) => Some(if b then 1 else 0)
    case UInt(n) => Some(n)
    case ULong(n) => Some(n)
    case Int(i) => Some(i)
    case Long(i) => Some(i)
    case _ => None
  }

  /** An unsigned number in the upper half of the range of its encoding. */
  predicate UpperHalf(v: Value) {
    match v
    case UInt(n) => 128 <= n < 256 || n >= 0x8000_0000
    case ULong(n) => 128 <= n < 256 || n >= 0x8000_0000_0000_0000
    case _ => false
  }

  lemma UnsignedMeaning(v: Value)
    requires (v.UInt? || v.ULong?) && InRange(v)
    ensures var (tag, body) := ScalarParts(v);
      && Whole(tag, body) && Meaning(tag, body) == Some(v.n)
      && (IsUnsigned(tag) || v.n == 0) && !IsText(tag) && tag != 0x41
      && (UpperHalf(v) <==> IsUnsigned(tag) && 2 * v.n >= Pow256(|body|))
  {
    var (tag, body) := ScalarParts(v);
    ScalarNumber(v);
    hide Number, Pow256, Bytes, Signed;
    Ranges(tag, body);
    if v.n == 0 {
      assert tag == 0x43 || tag == 0x44;
    } else if v.n < 256 {
      assert tag == 0x52 || tag == 0x53;
    } else {
      assert tag == if v.UInt? then 0x70 else 0x80;
    }
  }

  lemma SignedMeaning(v: Value)
    requires (v.Int? || v.Long?) && InRange(v)
    ensures var (tag, body) := ScalarParts(v);
      Whole(tag, body) && Meaning(tag, body) == Some(v.i) && IsSigned(tag)
  {
    var (tag, body) := ScalarParts(v);
    ScalarNumber(v);
    hide Number, Pow256, Bytes, Signed;
    if -128 <= v.i <= 127 {
      assert tag == 0x54 || tag == 0x55;
    } else {
      assert tag == if v.Int? then 0x71 else 0x81;
    }
  }

  lemma ScalarMeaning(v: Value)
    requires IsScalar(v) && InRange(v)
    ensures var (tag, body) := ScalarParts(v);
      && Whole(tag, body) && Meaning(tag, body) == NumberIn(v)
      && !IsText(tag) && tag != TIMESTAMP && tag != BOOLEAN
      && (UpperHalf(v) <==> IsUnsigned(tag) && 2 * Number(body) >= Pow256(|body|))
      && AsBool(tag, body) == (v == Bool(true))
  {
    ScalarNumber(v);
    hide Number, Pow256, Bytes, Signed;
    if v.UInt? || v.ULong? {
      UnsignedMeaning(v);
    } else if v.Int? || v.Long? {
      SignedMeaning(v);
    }
  }

  /** For every value with a number in it, wherever its encoding stands: reading the decoded field
      as unsigned gives the number if and only if it is not negative; as signed, if and only if it
      is not unsigned and in the upper half of its encoding. The 32-bit conversions ask besides
      that it fits. */
  lemma ConvertsEncoded(s: seq<Octet>, pos: nat, end: nat, v: Value, scan: Scanner)
    requires IsScalar(v) && InRange(v) && At(s, pos, end, Encode(v))
    ensures var n := Parse(s, pos, end).0;
      var (tag, body) := (n.tag, Octets(s, n.value));
      && Whole(tag, body)
      && AsULong(tag, body, scan) ==
         (if NumberIn(v).Some? && NumberIn(v).value >= 0 then Some(NumberIn(v).value) else None)
      && AsUInt(tag, body, scan) ==
         (if NumberIn(v).Some? && 0 <= NumberIn(v).value < TWO_32 then Some(NumberIn(v).value) else None)
      && AsLong(tag, body, scan) == (if UpperHalf(v) then None else NumberIn(v))
      && AsInt(tag, body, scan) ==
         (if !UpperHalf(v) && NumberIn(v).Some? && -TWO_32 <= 2 * NumberIn(v).value < TWO_32 then NumberIn(v)
          else None)
      && AsBool(tag, body) == (v == Bool(true))
  {
    assert pos <= end <= |s|;
    var (tag, body) := ScalarParts(v);
    assert At(s, pos, end, [tag] + body);
    hide At, Encode, ScalarParts;
    FixedParse(s, pos, end, tag, body);
    ScalarMeaning(v);
    hide Parse, Octets, Number, Pow256, NumberIn, UpperHalf, AsULong, AsLong, Meaning, FixedSize;
    ULongExact(tag, body, scan);
    LongExact(tag, body, scan);
    assert Whole(tag, body);
  }

  /** Every value reads back as itself in its own type. */
  lemma ReadsBackAsItself(s: seq<Octet>, pos: nat, end: nat, v: Value, scan: Scanner)
    requires IsScalar(v) && InRange(v) && At(s, pos, end, Encode(v))
    ensures var n := Parse(s, pos, end).0;
      var (tag, body) := (n.tag, Octets(s, n.value));
      && Whole(tag, body)
      && match v
         case UInt(x) => AsUInt(tag, body, scan) == Some(x)
         case ULong(x) => AsULong(tag, body, scan) == Some(x)
         case Int(i) => AsInt(tag, body, scan) == Some(i)
         case Long(i) => AsLong(tag, body, scan) == Some(i)
         case Bool(b) => AsBool(tag, body) == b
         case _ => true
  {
    assert pos <= end <= |s|;
    hide Parse, Octets, At, Encode, AsULong, AsLong, AsUInt, AsInt, AsBool, FixedSize;
    ConvertsEncoded(s, pos, end, v, scan);
  }

  /** The unsigned number 200 is refused as a signed one of 64 bits, while 256 is not. */
  lemma FittingNumberRefused(scan: Scanner)
    ensures InRange(UInt(200)) && InRange(UInt(256))
    ensures var (tag, body) := ScalarParts(UInt(200)); Whole(tag, body) && AsLong(tag, body, scan) == None
    ensures var (tag, body) := ScalarParts(UInt(256)); Whole(tag, body) && AsLong(tag, body, scan) == Some(256)
  {
    forall n: Value | n == UInt(200) || n == UInt(256)
      ensures var (tag, body) := ScalarParts(n);
        Whole(tag, body) && AsLong(tag, body, scan) == if UpperHalf(n) then None else NumberIn(n)
    {
      hide Encode, Number, Pow256, AsLong;
      ScalarMeaning(n);
      var (tag, body) := ScalarParts(n);
      LongExact(tag, body, scan);
    }
  }
}
