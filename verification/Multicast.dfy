/** One message content shared by the receiver and by any number of outgoing copies.

    Received buffers are chained in a list. Each carries a count of the copies that still
    need it, and leaves the list when the count drops to zero. Buffers are named by their
    order of arrival. Every section of code under the content's lock is one step, so a
    run is any interleaving of the receiver, the copies and the header parser. */
module Multicast {
  import opened Basics
  import opened Buffers

  type Buffer = seq<Octet>

  const Q2_LOWER := 32
  const Q2_UPPER := 64

  /** The buffer an outgoing copy sends from. */
  datatype Position = Nowhere | In(buf: nat)

  /** An outgoing copy. It began at buffer `start`, skipped `skip` octets there, and has `sent` the rest
      up to offset `off` in its current buffer. The buffers `missing` from there on had been freed
      before the copy was added. */
  datatype Copy = Copy(live: bool, started: bool, at: Position, off: nat, start: nat, skip: nat,
                       missing: set<nat>, sent: seq<Octet>, sendComplete: bool)

  /** The buffers received so far, those still listed, and their reference counts; `extra` counts the
      references that no copy will give back: protected headers and skipped sections. */
  datatype Chain = Chain(data: seq<Buffer>, list: seq<nat>, count: seq<int>, extra: seq<nat>)

  datatype Q2 = Q2(holdoff: bool, off: bool, kept: nat)

  /** Where the parser of sections goes on, whether it is past the sections that are protected, and the
      number of buffers freed by sending, on which it refuses to go on. */
  datatype Parser = Parser(at: Position, past: bool, freed: nat)

  datatype State = State(chain: Chain, pending: Buffer, fanout: nat, complete: bool, aborted: bool,
                         q2: Q2, parser: Parser, copies: seq<Copy>)

  datatype Action =
    | Receive(octets: seq<Octet>)
    | Push(check: bool, bounded: bool)
    | Finish(abort: bool)
    | StartParse
    | Protect(from: nat, last: nat, next: nat)
    | ParseOn(next: nat, body: bool)
    | AddFanout
    | Begin(i: nat, skip: nat)
    | Transfer(i: nat, n: nat)
    | Settle(i: nat)
    | SendFails(i: nat)
    | Free(i: nat)
    | Abort
    | DisableQ2

  // ---------------------------------------------------------------- the chain

  /** The chain with one more buffer at its end. */
  function Pushed(ch: Chain, buf: Buffer, count: nat): Chain {
    Chain(ch.data + [buf], ch.list + [|ch.data|], ch.count + [count], ch.extra + [0])
  }

  /** Changes the count of every buffer of a stretch; entries of freed buffers mean nothing. */
  function Shifted(count: seq<int>, from: nat, to: nat, delta: int): (r: seq<int>)
    ensures |r| == |count|
    ensures forall k :: 0 <= k < |r| ==> r[k] == count[k] + if from <= k < to then delta else 0
  {
    seq(|count|, k requires 0 <= k < |count| => count[k] + if from <= k < to then delta else 0)
  }

  predicate LastReference(count: seq<int>, from: nat, to: nat, b: nat) {
    from <= b < to && b < |count| && count[b] == 1
  }

  /** The list without the buffers of a stretch whose last reference is given back. */
  function Released(list: seq<nat>, count: seq<int>, from: nat, to: nat): seq<nat> {
    if list == [] then []
    else
      var rest := Released(list[1..], count, from, to);
      if LastReference(count, from, to, list[0]) then rest else [list[0]] + rest
  }

  /** The chain after the references on a stretch are given back. */
  function GiveBack(ch: Chain, from: nat, to: nat): (r: Chain)
    ensures r.data == ch.data && r.extra == ch.extra && |r.count| == |ch.count|
  {
    ch.(list := Released(ch.list, ch.count, from, to), count := Shifted(ch.count, from, to, -1))
  }

  /** The buffer listed behind `b`. */
  function NextIn(list: seq<nat>, b: nat): Position {
    if list == [] then Nowhere
    else if list[0] == b then (if |list| > 1 then In(list[1]) else Nowhere)
    else NextIn(list[1..], b)
  }

  /** How many are listed up to `last`, counted from the head. */
  function CountUpTo(list: seq<nat>, last: nat): (n: nat)
    ensures n <= |list|
  {
    if list == [] || list[0] > last then 0 else 1 + CountUpTo(list[1..], last)
  }

  /** The buffers of a copy: those missing to it hold nothing. */
  function Masked(data: seq<Buffer>, missing: set<nat>): (r: seq<Buffer>)
    ensures |r| == |data|
    ensures forall b :: 0 <= b < |r| ==> r[b] == if b in missing then [] else data[b]
  {
    seq(|data|, b requires 0 <= b < |data| => if b in missing then [] else data[b])
  }

  /** The buffers of the list's part from `head` on that are there no more. */
  function Gaps(ch: Chain, head: nat): set<nat> {
    set b | head <= b < |ch.data| && b !in ch.list
  }

  /** A position `n` octets further along the chain; it rests at the end of a buffer
      rather than at the start of the next. */
  function Advance(data: seq<Buffer>, b: nat, off: nat, n: nat): (nat, nat)
    requires b < |data| && off <= |data[b]|
    requires Offset(data, b) + off + n <= |Flat(data)|
    decreases |data| - b
  {
    if n <= |data[b]| - off then (b, off + n)
    else
      OffsetStep(data, b);
      OffsetEnd(data);
      Advance(data, b + 1, 0, n - (|data[b]| - off))
  }

  // ---------------------------------------------------------------- steps

  function Unprotected(s: State): int {
    |s.chain.list| - s.q2.kept
  }

  predicate ShouldBlock(s: State) {
    !s.q2.off && Unprotected(s) >= Q2_UPPER
  }

  predicate ShouldUnblock(s: State) {
    s.q2.off || Unprotected(s) < Q2_LOWER
  }

  predicate Initial(s: State) {
    && s.chain == Chain([], [], [], [])
    && s.pending == [] && s.fanout == 0 && !s.complete && !s.aborted
    && s.q2 == Q2(false, s.q2.off, 0) && s.parser == Parser(Nowhere, false, 0)
    && s.copies == []
  }

  predicate Active(s: State, i: nat) {
    i < |s.copies| && s.copies[i].live
  }

  /** The parser goes on while no buffer was freed by sending. The buffer it stopped in must still be there,
      which the code does not look at; see `GuardIsEnough`. */
  predicate CanParse(s: State) {
    s.parser.freed == 0 && s.parser.at.In? && s.parser.at.buf in s.chain.list
  }

  predicate Enabled(s: State, a: Action) {
    match a
    case Receive(_) => !s.complete
    case Push(_, _) => !s.complete && s.pending != []
    case Finish(_) => !s.complete
    case StartParse => s.parser.freed == 0 && s.parser.at.Nowhere? && s.chain.list != []
    case Protect(from, last, next) =>
      && CanParse(s) && !s.parser.past && s.parser.at == In(from)
      && last in s.chain.list && from <= last && (next == last || NextIn(s.chain.list, last) == In(next))
    case ParseOn(next, body) =>
      && CanParse(s) && next in s.chain.list && s.parser.at.buf <= next && s.parser.at.buf < |s.chain.extra|
      && (body || next == s.parser.at.buf ||
          (NextIn(s.chain.list, s.parser.at.buf) == In(next) && s.chain.extra[s.parser.at.buf] > 0))
    case AddFanout => s.chain.list != [] || (s.pending != [] && !s.complete)
    case Begin(i, skip) =>
      && Active(s, i) && !s.copies[i].started && s.chain.list != []
      && (!s.aborted ==>
            && s.chain.list[0] < |s.chain.data|
            && var own := Masked(s.chain.data, s.copies[i].missing);
               Offset(own, s.chain.list[0]) + skip <= |Flat(own)|)
    case Transfer(i, n) =>
      && Active(s, i) && s.copies[i].started && s.copies[i].at.In? && !s.aborted
      && s.copies[i].at.buf < |s.chain.data| && s.copies[i].off + n <= |s.chain.data[s.copies[i].at.buf]|
    case Settle(i) =>
      && Active(s, i) && s.copies[i].started && s.copies[i].at.In?
      && s.copies[i].at.buf < |s.chain.data| && s.copies[i].off == |s.chain.data[s.copies[i].at.buf]|
    case SendFails(i) => Active(s, i) && s.copies[i].started
    case Free(i) => Active(s, i)
    case Abort => true
    case DisableQ2 => true
  }

  /** The chain and its copies, when buffers are freed: holdoff ends once few enough are left. */
  function Unblocked(q: Q2, listed: nat): Q2 {
    if q.holdoff && (q.off || listed - q.kept < Q2_LOWER) then q.(holdoff := false) else q
  }

  /** The receiver appends its pending buffer for the copies there are. */
  function PushPending(s: State): State {
    if s.pending == [] then s
    else s.(chain := Pushed(s.chain, s.pending, s.fanout), pending := [])
  }

  function Blocked(s: State, bounded: bool): State {
    if ShouldBlock(s) && bounded then s.(q2 := s.q2.(holdoff := true)) else s
  }

  function ReceiverStep(s: State, a: Action): State
    requires Enabled(s, a)
  {
    match a
    case Receive(octets) => s.(pending := s.pending + octets)
    case Push(check, bounded) => if check then Blocked(PushPending(s), bounded) else PushPending(s)
    case Finish(abort) => PushPending(s).(complete := true, aborted := s.aborted || abort)
    case StartParse => s.(parser := s.parser.(at := In(s.chain.list[0])))
    case Protect(from, last, next) =>
      s.(chain := s.chain.(count := Shifted(s.chain.count, from, last + 1, 1),
                           extra := Noted(s.chain.extra, from, last + 1)),
         q2 := s.q2.(kept := CountUpTo(s.chain.list, last)),
         parser := s.parser.(at := In(next)))
    case ParseOn(next, body) => s.(parser := s.parser.(at := In(next), past := s.parser.past || body))
    case _ => s
  }

  function Noted(extra: seq<nat>, from: nat, to: nat): (r: seq<nat>)
    ensures |r| == |extra|
    ensures forall k :: 0 <= k < |r| ==> r[k] == extra[k] + if from <= k < to then 1 else 0
  {
    seq(|extra|, k requires 0 <= k < |extra| => extra[k] + if from <= k < to then 1 else 0)
  }

  /** A new copy holds every buffer of the list, from its head. */
  function WithCopy(s: State): State
    requires s.chain.list != []
  {
    var head := s.chain.list[0];
    s.(chain := s.chain.(count := Shifted(s.chain.count, head, |s.chain.data|, 1)),
       fanout := s.fanout + 1,
       copies := s.copies + [Copy(true, false, In(head), 0, head, 0, Gaps(s.chain, head), [], false)])
  }

  function SetCopy(s: State, i: nat, c: Copy): State
    requires i < |s.copies|
  {
    s.(copies := s.copies[i := c])
  }

  /** The first send starts at the head and skips the old router annotations. */
  function Started(s: State, i: nat, skip: nat): State
    requires Enabled(s, Begin(i, skip))
  {
    if s.aborted then SetCopy(s, i, s.copies[i].(sendComplete := true))
    else
      var head := s.chain.list[0];
      var (b, off) := Advance(Masked(s.chain.data, s.copies[i].missing), head, 0, skip);
      SetCopy(s.(chain := s.chain.(extra := Noted(s.chain.extra, head, b))), i,
              s.copies[i].(started := true, at := In(b), off := off, skip := skip))
  }

  /** A buffer sent whole is given up once there is a next one or there will be none. */
  function Settled(s: State, i: nat): State
    requires Enabled(s, Settle(i))
  {
    var b := s.copies[i].at.buf;
    var next := NextIn(s.chain.list, b);
    if next.In? || s.complete then
      var ch := GiveBack(s.chain, b, b + 1);
      var freed := |ch.list| < |s.chain.list|;
      SetCopy(s.(chain := ch, q2 := if freed then Unblocked(s.q2, |ch.list|) else s.q2,
                 parser := if freed then s.parser.(freed := s.parser.freed + 1) else s.parser), i,
              s.copies[i].(at := next, off := 0, sendComplete := s.complete && next == Nowhere))
    else s
  }

  /** A freed copy gives back what it has not sent. */
  function Freed(s: State, i: nat): State
    requires Enabled(s, Free(i))
  {
    var c := s.copies[i];
    var ch := if c.at.In? then GiveBack(s.chain, c.at.buf, |s.chain.data|) else s.chain;
    SetCopy(s.(chain := ch, fanout := if s.fanout == 0 then 0 else s.fanout - 1,
               q2 := if ShouldUnblock(s) then s.q2 else Unblocked(s.q2, |ch.list|)),
            i, c.(live := false))
  }

  function CopyStep(s: State, a: Action): State
    requires Enabled(s, a)
  {
    match a
    case AddFanout =>
      if s.chain.list == [] then WithCopy(s.(chain := Pushed(s.chain, s.pending, 0), pending := []))
      else WithCopy(s)
    case Begin(i, skip) => Started(s, i, skip)
    case Transfer(i, n) =>
      var c := s.copies[i];
      SetCopy(s, i, c.(off := c.off + n, sent := c.sent + s.chain.data[c.at.buf][c.off..c.off + n]))
    case Settle(i) => Settled(s, i)
    case SendFails(i) => SetCopy(s, i, s.copies[i].(sendComplete := true)).(aborted := true)
    case Free(i) => Freed(s, i)
    case Abort => s.(aborted := true)
    case DisableQ2 => if s.q2.off then s else s.(q2 := s.q2.(off := true, holdoff := false))
    case _ => s
  }

  predicate OfReceiver(a: Action) {
    a.Receive? || a.Push? || a.Finish? || a.StartParse? || a.Protect? || a.ParseOn?
  }

  function Step(s: State, a: Action): State
    requires Enabled(s, a)
  {
    if OfReceiver(a) then ReceiverStep(s, a) else CopyStep(s, a)
  }

  ghost predicate Run(states: seq<State>, actions: seq<Action>) {
    && |states| == |actions| + 1
    && Initial(states[0])
    && forall i :: 0 <= i < |actions| ==> Enabled(states[i], actions[i]) && states[i + 1] == Step(states[i], actions[i])
  }

  // ---------------------------------------------------------------- who holds a buffer

  /** A live copy holds its buffer and all that follow. */
  predicate Holds(c: Copy, b: nat) {
    c.live && c.at.In? && c.at.buf <= b
  }

  function Holders(copies: seq<Copy>, b: nat): nat {
    if copies == [] then 0
    else Holders(copies[..|copies| - 1], b) + if Holds(copies[|copies| - 1], b) then 1 else 0
  }

  function LiveCopies(copies: seq<Copy>): nat {
    if copies == [] then 0
    else LiveCopies(copies[..|copies| - 1]) + if copies[|copies| - 1].live then 1 else 0
  }

  lemma {:induction false} HoldersChange(copies: seq<Copy>, i: nat, c: Copy, b: nat)
    requires i < |copies|
    ensures Holders(copies[i := c], b) ==
            Holders(copies, b) + (if Holds(c, b) then 1 else 0) - (if Holds(copies[i], b) then 1 else 0)
    decreases |copies|
  {
    var n := |copies| - 1;
    if i < n {
      HoldersChange(copies[..n], i, c, b);
      assert copies[i := c][..n] == copies[..n][i := c];
    } else {
      assert copies[i := c][..n] == copies[..n];
    }
  }

  lemma {:induction false} LiveChange(copies: seq<Copy>, i: nat, c: Copy)
    requires i < |copies|
    ensures LiveCopies(copies[i := c]) ==
            LiveCopies(copies) + (if c.live then 1 else 0) - (if copies[i].live then 1 else 0)
    decreases |copies|
  {
    var n := |copies| - 1;
    if i < n {
      LiveChange(copies[..n], i, c);
      assert copies[i := c][..n] == copies[..n][i := c];
    } else {
      assert copies[i := c][..n] == copies[..n];
    }
  }

  lemma {:induction false} AHolderCounts(copies: seq<Copy>, i: nat, b: nat)
    requires i < |copies| && Holds(copies[i], b)
    ensures Holders(copies, b) > 0
    decreases |copies|
  {
    var n := |copies| - 1;
    if i < n {
      AHolderCounts(copies[..n], i, b);
    }
  }

  /** When every live copy holds a buffer, there are as many holders as live copies. */
  lemma {:induction false} AllHold(copies: seq<Copy>, b: nat)
    requires forall i :: 0 <= i < |copies| && copies[i].live ==> Holds(copies[i], b)
    ensures Holders(copies, b) == LiveCopies(copies)
    decreases |copies|
  {
    if copies != [] {
      AllHold(copies[..|copies| - 1], b);
    }
  }

  lemma {:induction false} NoneLive(copies: seq<Copy>, b: nat)
    requires forall i :: 0 <= i < |copies| ==> !copies[i].live
    ensures Holders(copies, b) == 0
    decreases |copies|
  {
    if copies != [] {
      NoneLive(copies[..|copies| - 1], b);
    }
  }

  lemma OneMoreHolder(copies: seq<Copy>, c: Copy, b: nat)
    ensures Holders(copies + [c], b) == Holders(copies, b) + if Holds(c, b) then 1 else 0
    ensures LiveCopies(copies + [c]) == LiveCopies(copies) + if c.live then 1 else 0
  {
    assert (copies + [c])[..|copies|] == copies;
  }

  // ---------------------------------------------------------------- the list

  ghost predicate Sorted(list: seq<nat>) {
    forall j, k :: 0 <= j < k < |list| ==> list[j] < list[k]
  }

  ghost predicate ListOk(ch: Chain) {
    && |ch.count| == |ch.extra| == |ch.data|
    && Sorted(ch.list)
    && (forall b :: b in ch.list ==> b < |ch.data|)
    && (forall b :: 0 <= b < |ch.data| ==> ch.data[b] != [])
  }

  /** Every listed buffer counts its holders and the references that stay. */
  ghost predicate Counted(ch: Chain, copies: seq<Copy>)
    requires ListOk(ch)
  {
    forall b :: b in ch.list ==> ch.count[b] == Holders(copies, b) + ch.extra[b]
  }

  lemma TailOf(list: seq<nat>)
    requires Sorted(list) && list != []
    ensures Sorted(list[1..])
    ensures forall b :: b in list[1..] <==> b in list && b != list[0]
    ensures forall b :: b in list[1..] ==> list[0] < b
  {
    assert list == [list[0]] + list[1..];
  }

  lemma ConsSorted(b: nat, list: seq<nat>)
    requires Sorted(list) && forall k :: k in list ==> b < k
    ensures Sorted([b] + list)
  {
    var r := [b] + list;
    forall j, k | 0 <= j < k < |r| ensures r[j] < r[k] {
      assert r[k] == list[k - 1] && list[k - 1] in list;
      assert j > 0 ==> r[j] == list[j - 1];
    }
  }

  lemma {:induction false} ReleasedMembers(list: seq<nat>, count: seq<int>, from: nat, to: nat)
    requires Sorted(list)
    ensures Sorted(Released(list, count, from, to))
    ensures forall b :: b in Released(list, count, from, to) <==> b in list && !LastReference(count, from, to, b)
    decreases |list|
  {
    if list != [] {
      hide Sorted, LastReference;
      TailOf(list);
      ReleasedMembers(list[1..], count, from, to);
      ConsSorted(list[0], Released(list[1..], count, from, to));
    }
  }

  /** The buffer behind `b` is the next that is listed. */
  lemma {:induction false} NextIsListed(list: seq<nat>, b: nat)
    requires Sorted(list) && b in list
    ensures var n := NextIn(list, b);
      && (n.In? ==> n.buf in list && b < n.buf && forall k :: k in list ==> k <= b || n.buf <= k)
      && (n.Nowhere? ==> forall k :: k in list ==> k <= b)
    decreases |list|
  {
    TailOf(list);
    if list[0] != b {
      NextIsListed(list[1..], b);
    } else if |list| > 1 {
      TailOf(list[1..]);
      assert list[1] in list;
    }
  }

  lemma HeadIs(list: seq<nat>, b: nat)
    requires Sorted(list) && b in list
    requires forall k :: k in list ==> b <= k
    ensures list[0] == b
  {
    assert list[0] in list;
  }

  /** A copy gives back a stretch it holds: the counts stay right, and what anyone still needs stays. */
  lemma GiveBackKeeps(ch: Chain, copies: seq<Copy>, i: nat, c: Copy, from: nat, to: nat)
    requires ListOk(ch) && Counted(ch, copies) && i < |copies| && from <= to <= |ch.data|
    requires forall b :: from <= b < to ==> Holds(copies[i], b)
    requires forall b :: b in ch.list ==> (Holds(c, b) <==> Holds(copies[i], b) && !(from <= b < to))
    ensures ListOk(GiveBack(ch, from, to))
    ensures Counted(GiveBack(ch, from, to), copies[i := c])
    ensures forall b :: b in GiveBack(ch, from, to).list ==> b in ch.list
    ensures forall b :: b in ch.list && Holders(copies[i := c], b) + ch.extra[b] > 0 ==> b in GiveBack(ch, from, to).list
  {
    hide Sorted, Holds, Holders;
    ReleasedMembers(ch.list, ch.count, from, to);
    forall b | b in ch.list
      ensures Holders(copies[i := c], b) == Holders(copies, b) - if from <= b < to then 1 else 0
    {
      HoldersChange(copies, i, c, b);
    }
  }

  // ---------------------------------------------------------------- what each copy has sent

  /** Where in the stream of its buffers the copy's own octets begin. */
  function Origin(data: seq<Buffer>, c: Copy): nat
    requires c.start <= |data|
  {
    Offset(data, c.start) + c.skip
  }

  /** The copy has sent a stretch of the stream and stands at its end. */
  ghost predicate SentOk(data: seq<Buffer>, c: Copy, complete: bool, aborted: bool) {
    && c.start < |data|
    && var end := Origin(data, c) + |c.sent|;
    && end <= |Flat(data)|
    && c.sent == Flat(data)[Origin(data, c)..end]
    && (c.live && c.started && c.at.In? && c.at.buf < |data| ==> end == Offset(data, c.at.buf) + c.off)
    && (c.live && c.started && c.at.Nowhere? ==> end == |Flat(data)|)
    && (c.sendComplete && !aborted ==> complete && end == |Flat(data)|)
    && (!c.started ==> c.sent == [] && c.skip == 0)
  }

  /** Every buffer from a live copy's on is listed, but for those that were missing from the start. */
  ghost predicate Reaches(ch: Chain, c: Copy) {
    && (forall b :: b in c.missing ==> c.start < b < |ch.data|)
    && (c.live && c.at.In? ==>
          && c.at.buf < |ch.data| && c.at.buf in ch.list && c.off <= |ch.data[c.at.buf]|
          && forall b :: c.at.buf <= b < |ch.data| ==> (b in ch.list <==> b !in c.missing))
  }

  ghost predicate CopyOk(ch: Chain, c: Copy, complete: bool, aborted: bool) {
    && Reaches(ch, c)
    && (c.live && c.at.Nowhere? ==> complete && c.started)
    && (c.live && !c.started ==> c.at == In(c.start) && c.off == 0 && ch.list != [] && ch.list[0] == c.start)
    && SentOk(Masked(ch.data, c.missing), c, complete, aborted)
  }

  ghost predicate CopiesOk(s: State) {
    forall i :: 0 <= i < |s.copies| ==> CopyOk(s.chain, s.copies[i], s.complete, s.aborted)
  }

  /** The counted headers are the front of the list, and so is all that the parser has been through. */
  ghost predicate KeptOk(s: State)
    requires ListOk(s.chain)
  {
    && s.q2.kept <= |s.chain.list|
    && (forall j :: 0 <= j < s.q2.kept ==>
          s.chain.list[j] < |s.chain.extra| && s.chain.extra[s.chain.list[j]] > 0)
    && (s.parser.at.In? ==> s.parser.at.buf < |s.chain.data|)
    && (s.q2.kept > 0 ==> s.parser.at.In? && s.chain.list[s.q2.kept - 1] <= s.parser.at.buf)
    && (s.parser.at.In? && !s.parser.past ==>
          forall b :: b in s.chain.list && b < s.parser.at.buf ==> s.chain.extra[b] > 0)
  }

  ghost predicate Inv(s: State) {
    && ListOk(s.chain)
    && Counted(s.chain, s.copies)
    && CopiesOk(s)
    && s.fanout == LiveCopies(s.copies)
    && KeptOk(s)
    && (s.complete ==> s.pending == [])
  }

  lemma {:induction false} AdvanceMoves(data: seq<Buffer>, b: nat, off: nat, n: nat)
    requires b < |data| && off <= |data[b]|
    requires Offset(data, b) + off + n <= |Flat(data)|
    ensures var (c, o) := Advance(data, b, off, n);
            b <= c < |data| && o <= |data[c]| && Offset(data, c) + o == Offset(data, b) + off + n
    decreases |data| - b
  {
    if n > |data[b]| - off {
      OffsetStep(data, b);
      OffsetEnd(data);
      AdvanceMoves(data, b + 1, 0, n - (|data[b]| - off));
    }
  }

  // ---------------------------------------------------------------- every step keeps the invariant

  lemma PushedListOk(ch: Chain, buf: Buffer, count: nat)
    requires ListOk(ch) && buf != []
    ensures ListOk(Pushed(ch, buf, count))
    ensures forall b :: b in Pushed(ch, buf, count).list <==> b in ch.list || b == |ch.data|
  {
    var t := Pushed(ch, buf, count);
    forall j, k | 0 <= j < k < |t.list| ensures t.list[j] < t.list[k] {
      assert t.list[j] == ch.list[j] && ch.list[j] in ch.list;
    }
  }

  lemma PushedCounted(ch: Chain, buf: Buffer, count: nat, copies: seq<Copy>)
    requires ListOk(ch) && buf != [] && Counted(ch, copies)
    requires count == Holders(copies, |ch.data|)
    ensures ListOk(Pushed(ch, buf, count)) && Counted(Pushed(ch, buf, count), copies)
  {
    hide Holders, Sorted;
    PushedListOk(ch, buf, count);
  }

  lemma PushedCopyOk(ch: Chain, buf: Buffer, count: nat, c: Copy, aborted: bool)
    requires ListOk(ch) && buf != [] && CopyOk(ch, c, false, aborted)
    ensures CopyOk(Pushed(ch, buf, count), c, false, aborted)
  {
    hide Sorted, Flat, Offset;
    PushedListOk(ch, buf, count);
    var own := Masked(ch.data, c.missing);
    assert Masked(ch.data + [buf], c.missing) == own + [buf];
    FlatPush(own, buf, c.start);
    if c.live && c.at.In? {
      FlatPush(own, buf, c.at.buf);
    }
  }

  lemma PushedKept(s: State, count: nat)
    requires ListOk(s.chain) && s.pending != [] && KeptOk(s)
    ensures var t := s.(chain := Pushed(s.chain, s.pending, count), pending := []); ListOk(t.chain) && KeptOk(t)
  {
    PushedListOk(s.chain, s.pending, count);
  }

  lemma PushKeeps(s: State, count: nat)
    requires Inv(s) && !s.complete && s.pending != [] && count == Holders(s.copies, |s.chain.data|)
    ensures Inv(s.(chain := Pushed(s.chain, s.pending, count), pending := []))
  {
    hide CopyOk, ListOk, Counted, Holders, LiveCopies, KeptOk;
    PushedCounted(s.chain, s.pending, count, s.copies);
    PushedKept(s, count);
    forall i | 0 <= i < |s.copies| ensures CopyOk(Pushed(s.chain, s.pending, count), s.copies[i], false, s.aborted) {
      PushedCopyOk(s.chain, s.pending, count, s.copies[i], s.aborted);
    }
  }

  lemma PushPendingKeeps(s: State)
    requires Inv(s) && !s.complete
    ensures Inv(PushPending(s))
  {
    hide ListOk, Counted, SentOk, KeptOk, Pushed;
    if s.pending != [] {
      AllHold(s.copies, |s.chain.data|);
      PushKeeps(s, s.fanout);
    }
  }

  lemma FinishKeeps(s: State, abort: bool)
    requires Inv(s) && !s.complete
    ensures Inv(ReceiverStep(s, Finish(abort)))
  {
    hide ListOk, Counted, Offset, Flat, Pushed, LiveCopies;
    PushPendingKeeps(s);
    var t := PushPending(s);
    forall i | 0 <= i < |t.copies| ensures CopyOk(t.chain, t.copies[i], true, t.aborted || abort) {
      assert CopyOk(t.chain, t.copies[i], false, t.aborted);
    }
  }

  lemma {:induction false} CountUpToIs(list: seq<nat>, last: nat)
    requires Sorted(list)
    ensures forall j :: 0 <= j < |list| ==> (j < CountUpTo(list, last) <==> list[j] <= last)
    decreases |list|
  {
    if list != [] && list[0] <= last {
      TailOf(list);
      CountUpToIs(list[1..], last);
      assert forall j :: 0 < j < |list| ==> list[j] == list[1..][j - 1];
    }
  }

  /** Protected, the buffers of a section are among the headers counted, and all before them are. */
  lemma ProtectedKept(s: State, a: Action)
    requires ListOk(s.chain) && KeptOk(s) && Enabled(s, a) && a.Protect?
    ensures ListOk(ReceiverStep(s, a).chain) && KeptOk(ReceiverStep(s, a))
  {
    var t := ReceiverStep(s, a);
    CountUpToIs(s.chain.list, a.last);
    NextIsListed(s.chain.list, a.last);
    forall b | b in s.chain.list && b <= a.last ensures t.chain.extra[b] > 0 {
      assert b < a.from ==> s.chain.extra[b] > 0;
    }
    forall j | 0 <= j < t.q2.kept ensures t.chain.extra[t.chain.list[j]] > 0 {
      assert s.chain.list[j] in s.chain.list;
    }
  }

  lemma ProtectedCounted(ch: Chain, copies: seq<Copy>, from: nat, to: nat)
    requires ListOk(ch) && Counted(ch, copies)
    ensures var t := ch.(count := Shifted(ch.count, from, to, 1), extra := Noted(ch.extra, from, to));
            ListOk(t) && Counted(t, copies)
  {
    hide Holders, Sorted;
  }

  lemma SameListed(ch: Chain, t: Chain, c: Copy, complete: bool, aborted: bool)
    requires CopyOk(ch, c, complete, aborted) && t.data == ch.data && t.list == ch.list
    ensures CopyOk(t, c, complete, aborted)
  {
    hide SentOk, Masked;
  }

  lemma ProtectKeeps(s: State, a: Action)
    requires Inv(s) && Enabled(s, a) && a.Protect?
    ensures Inv(ReceiverStep(s, a))
  {
    ProtectedKept(s, a);
    ProtectedCounted(s.chain, s.copies, a.from, a.last + 1);
    hide ListOk, Counted, LiveCopies, KeptOk, CountUpTo, NextIn, CopyOk, Shifted, Noted;
    var t := ReceiverStep(s, a);
    forall i | 0 <= i < |s.copies| ensures CopyOk(t.chain, t.copies[i], t.complete, t.aborted) {
      SameListed(s.chain, t.chain, s.copies[i], s.complete, s.aborted);
    }
  }

  lemma ParserKeeps(s: State, a: Action)
    requires Inv(s) && Enabled(s, a) && (a.StartParse? || a.ParseOn?)
    ensures Inv(ReceiverStep(s, a))
  {
    hide CopyOk, Counted, LiveCopies;
    if a.ParseOn? {
      NextIsListed(s.chain.list, s.parser.at.buf);
    } else {
      assert s.chain.list[0] in s.chain.list;
    }
  }

  // ---- one copy changes

  lemma SameHolders(ch: Chain, copies: seq<Copy>, i: nat, c: Copy)
    requires ListOk(ch) && Counted(ch, copies) && i < |copies|
    requires c.live == copies[i].live && c.at == copies[i].at
    ensures Counted(ch, copies[i := c]) && LiveCopies(copies[i := c]) == LiveCopies(copies)
  {
    hide Holders, LiveCopies;
    LiveChange(copies, i, c);
    forall b | b in ch.list ensures Holders(copies[i := c], b) == Holders(copies, b) {
      HoldersChange(copies, i, c, b);
    }
  }

  lemma TransferKeeps(s: State, i: nat, n: nat)
    requires Inv(s) && Enabled(s, Transfer(i, n))
    ensures Inv(CopyStep(s, Transfer(i, n)))
  {
    hide Holders, LiveCopies, ListOk, Counted, Flat;
    var c := s.copies[i];
    var t := CopyStep(s, Transfer(i, n));
    SameHolders(s.chain, s.copies, i, t.copies[i]);
    assert CopyOk(s.chain, c, s.complete, s.aborted);
    TransferSends(Masked(s.chain.data, c.missing), c, n, s.complete, s.aborted);
  }

  lemma TransferSends(data: seq<Buffer>, c: Copy, n: nat, complete: bool, aborted: bool)
    requires SentOk(data, c, complete, aborted) && c.live && c.started && c.at.In? && c.at.buf < |data| && !aborted
    requires c.off + n <= |data[c.at.buf]|
    ensures SentOk(data, c.(off := c.off + n, sent := c.sent + data[c.at.buf][c.off..c.off + n]), complete, aborted)
  {
    FlatSlice(data, c.at.buf, c.off, c.off + n);
    var end := Origin(data, c) + |c.sent|;
    assert Flat(data)[Origin(data, c)..end + n] == Flat(data)[Origin(data, c)..end] + Flat(data)[end..end + n];
  }

  lemma BeginKeeps(s: State, i: nat, skip: nat)
    requires Inv(s) && Enabled(s, Begin(i, skip)) && !s.aborted
    ensures Inv(CopyStep(s, Begin(i, skip)))
  {
    BeginCopy(s, i, skip);
    hide LiveCopies, Flat, Offset, CopyOk, ListOk, Counted, Advance, Masked, Noted, KeptOk;
    var t := CopyStep(s, Begin(i, skip));
    LiveChange(s.copies, i, t.copies[i]);
    BeginCounted(s, i, skip);
    forall j | 0 <= j < |s.copies| ensures CopyOk(t.chain, t.copies[j], t.complete, t.aborted) {
      if j != i {
        SameListed(s.chain, t.chain, s.copies[j], s.complete, s.aborted);
      }
    }
  }

  /** The references on buffers skipped by the first send stay. */
  lemma BeginCounted(s: State, i: nat, skip: nat)
    requires Inv(s) && Enabled(s, Begin(i, skip)) && !s.aborted
    ensures var t := CopyStep(s, Begin(i, skip)); ListOk(t.chain) && Counted(t.chain, t.copies) && KeptOk(t)
  {
    hide Holders, LiveCopies, Flat, Sorted, Offset, SentOk;
    var c := s.copies[i];
    var t := CopyStep(s, Begin(i, skip));
    assert CopyOk(s.chain, c, s.complete, s.aborted);
    BeginLands(s.chain, c, skip);
    hide Advance, Masked;
    forall b | b in s.chain.list
      ensures t.chain.count[b] == Holders(t.copies, b) + t.chain.extra[b]
    {
      HoldersChange(s.copies, i, t.copies[i], b);
    }
  }

  lemma BeginCopy(s: State, i: nat, skip: nat)
    requires Inv(s) && Enabled(s, Begin(i, skip)) && !s.aborted
    ensures var t := CopyStep(s, Begin(i, skip)); CopyOk(t.chain, t.copies[i], t.complete, t.aborted)
  {
    hide Holders, LiveCopies, Flat, Sorted, Offset, Counted, KeptOk, Noted;
    var c := s.copies[i];
    assert CopyOk(s.chain, c, s.complete, s.aborted);
    BeginLands(s.chain, c, skip);
    hide Advance, Masked;
  }

  /** The first send begins in a buffer that is there. */
  lemma BeginLands(ch: Chain, c: Copy, skip: nat)
    requires Reaches(ch, c) && c.live && c.at == In(c.start) && c.start in ch.list
    requires var own := Masked(ch.data, c.missing); Offset(own, c.start) + skip <= |Flat(own)|
    ensures var own := Masked(ch.data, c.missing); var (b, off) := Advance(own, c.start, 0, skip);
      && c.start <= b < |ch.data| && b !in c.missing && b in ch.list && off <= |ch.data[b]|
      && Offset(own, b) + off == Offset(own, c.start) + skip
  {
    var own := Masked(ch.data, c.missing);
    AdvanceMoves(own, c.start, 0, skip);
    AdvanceLands(own, c.start, 0, skip);
  }

  /** Moving on ends where it began, or behind an octet. */
  lemma {:induction false} AdvanceLands(data: seq<Buffer>, b: nat, off: nat, n: nat)
    requires b < |data| && off <= |data[b]|
    requires Offset(data, b) + off + n <= |Flat(data)|
    ensures var (c, o) := Advance(data, b, off, n);
      if n <= |data[b]| - off then c == b else b < c < |data| && data[c] != []
    decreases |data| - b
  {
    if n > |data[b]| - off {
      OffsetStep(data, b);
      OffsetEnd(data);
      AdvanceLands(data, b + 1, 0, n - (|data[b]| - off));
    }
  }

  lemma FailKeeps(s: State, i: nat)
    requires Inv(s) && i < |s.copies|
    ensures Inv(SetCopy(s, i, s.copies[i].(sendComplete := true)).(aborted := true))
    ensures s.aborted ==> Inv(SetCopy(s, i, s.copies[i].(sendComplete := true)))
  {
    hide Holders, LiveCopies, ListOk, Counted, Flat, Offset, Masked, KeptOk;
    SameHolders(s.chain, s.copies, i, s.copies[i].(sendComplete := true));
    SameKept(s, SetCopy(s, i, s.copies[i].(sendComplete := true)).(aborted := true));
    assert forall j :: 0 <= j < |s.copies| ==> CopyOk(s.chain, s.copies[j], s.complete, s.aborted);
  }

  /** What happens to the other copies, and to this one, when this one gives back a stretch. */
  lemma OthersKeep(ch: Chain, copies: seq<Copy>, i: nat, c: Copy, from: nat, to: nat, j: nat, complete: bool, aborted: bool)
    requires ListOk(ch) && Counted(ch, copies) && i < |copies| && from <= to <= |ch.data|
    requires forall b :: from <= b < to ==> Holds(copies[i], b)
    requires forall b :: b in ch.list ==> (Holds(c, b) <==> Holds(copies[i], b) && !(from <= b < to))
    requires j < |copies| && CopyOk(ch, copies[j], complete, aborted)
    ensures j != i ==> CopyOk(GiveBack(ch, from, to), copies[j], complete, aborted)
    ensures forall b :: b in ch.list && Holds(c, b) ==> b in GiveBack(ch, from, to).list
    ensures forall b :: b in GiveBack(ch, from, to).list ==> b in ch.list
  {
    hide Holders, SentOk, Sorted, Released, Shifted;
    var t := GiveBack(ch, from, to);
    GiveBackKeeps(ch, copies, i, c, from, to);
    forall b | b in ch.list && Holds(c, b) ensures b in t.list {
      AHolderCounts(copies[i := c], i, b);
    }
    if j != i {
      forall b | b in ch.list && Holds(copies[j], b) ensures b in t.list {
        AHolderCounts(copies[i := c], j, b);
      }
      var d := copies[j];
      if d.live && !d.started {
        assert d.start in t.list;
        HeadStays(ch.list, t.list, d.start);
      }
    }
  }

  lemma HeadStays(list: seq<nat>, rest: seq<nat>, b: nat)
    requires Sorted(list) && Sorted(rest) && list != [] && list[0] == b && b in rest
    requires forall k :: k in rest ==> k in list
    ensures rest != [] && rest[0] == b
  {
    HeadIs(rest, b);
  }

  lemma {:induction false} FrontNotReleased(list: seq<nat>, count: seq<int>, from: nat, to: nat, n: nat)
    requires n <= |list| && forall j :: 0 <= j < n ==> !LastReference(count, from, to, list[j])
    ensures n <= |Released(list, count, from, to)| && Released(list, count, from, to)[..n] == list[..n]
    decreases |list|
  {
    if n > 0 {
      hide LastReference;
      FrontNotReleased(list[1..], count, from, to, n - 1);
      var rest := Released(list[1..], count, from, to);
      assert ([list[0]] + rest)[..n] == [list[0]] + rest[..n - 1];
      assert list[..n] == [list[0]] + list[1..][..n - 1];
    }
  }

  /** Giving back keeps the protected front. */
  lemma FrontStays(s: State, i: nat, from: nat, to: nat, t: State)
    requires ListOk(s.chain) && Counted(s.chain, s.copies) && KeptOk(s)
    requires i < |s.copies| && from <= to <= |s.chain.data| && forall b :: from <= b < to ==> Holds(s.copies[i], b)
    requires t.chain == GiveBack(s.chain, from, to) && t.q2.kept == s.q2.kept
    requires t.parser.at == s.parser.at && t.parser.past == s.parser.past
    ensures ListOk(t.chain) && KeptOk(t)
  {
    hide Holders, Sorted, Holds;
    ReleasedMembers(s.chain.list, s.chain.count, from, to);
    forall j | 0 <= j < s.q2.kept ensures !LastReference(s.chain.count, from, to, s.chain.list[j]) {
      var b := s.chain.list[j];
      assert b in s.chain.list;
      if from <= b < to {
        AHolderCounts(s.copies, i, b);
      }
    }
    FrontNotReleased(s.chain.list, s.chain.count, from, to, s.q2.kept);
    assert forall j :: 0 <= j < s.q2.kept ==> t.chain.list[j] == t.chain.list[..s.q2.kept][j] == s.chain.list[j];
  }

  /** A live copy stands in a buffer that came, and all that is listed came. */
  lemma PlaceOf(s: State, i: nat)
    requires Inv(s) && Active(s, i)
    ensures s.copies[i].at.In? ==> s.copies[i].at.buf < |s.chain.data|
    ensures forall b :: b in s.chain.list ==> b < |s.chain.data|
  {
    assert CopyOk(s.chain, s.copies[i], s.complete, s.aborted);
  }

  lemma FreeKeeps(s: State, i: nat)
    requires Inv(s) && Enabled(s, Free(i))
    ensures Inv(CopyStep(s, Free(i)))
  {
    hide Holders, LiveCopies, ListOk, Counted, CopyOk, GiveBack, KeptOk;
    PlaceOf(s, i);
    var c := s.copies[i];
    var d := c.(live := false);
    var t := CopyStep(s, Free(i));
    LiveChange(s.copies, i, d);
    DeadCopy(t.chain, s.chain, c, s.complete, s.aborted);
    if c.at.In? {
      var n := |s.chain.data|;
      GiveBackKeeps(s.chain, s.copies, i, d, c.at.buf, n);
      FrontStays(s, i, c.at.buf, n, t);
      forall j | 0 <= j < |s.copies| ensures CopyOk(t.chain, t.copies[j], t.complete, t.aborted) {
        OthersKeep(s.chain, s.copies, i, d, c.at.buf, n, j, s.complete, s.aborted);
      }
    } else {
      FreedNowhere(s.chain, s.copies, i);
      SameKept(s, t);
    }
  }

  lemma SameKept(s: State, t: State)
    requires ListOk(s.chain) && KeptOk(s) && t.chain == s.chain && t.q2.kept == s.q2.kept && t.parser == s.parser
    ensures KeptOk(t)
  {
  }

  lemma FreedNowhere(ch: Chain, copies: seq<Copy>, i: nat)
    requires ListOk(ch) && Counted(ch, copies) && i < |copies| && copies[i].at.Nowhere?
    ensures Counted(ch, copies[i := copies[i].(live := false)])
  {
    hide Holders;
    forall b | b in ch.list ensures Holders(copies[i := copies[i].(live := false)], b) == Holders(copies, b) {
      HoldersChange(copies, i, copies[i].(live := false), b);
    }
  }

  lemma DeadCopy(t: Chain, ch: Chain, c: Copy, complete: bool, aborted: bool)
    requires t.data == ch.data && CopyOk(ch, c, complete, aborted)
    ensures CopyOk(t, c.(live := false), complete, aborted)
  {
    hide Flat, Offset;
  }

  lemma SettleKeeps(s: State, i: nat)
    requires Inv(s) && Enabled(s, Settle(i))
    ensures Inv(CopyStep(s, Settle(i)))
  {
    hide Holders, LiveCopies, Counted, SentOk, GiveBack, Sorted, NextIn, KeptOk, Masked;
    var c := s.copies[i];
    var b := c.at.buf;
    assert CopyOk(s.chain, c, s.complete, s.aborted);
    NextIsListed(s.chain.list, b);
    var t := CopyStep(s, Settle(i));
    var d := t.copies[i];
    LiveChange(s.copies, i, d);
    if NextIn(s.chain.list, b).In? || s.complete {
      GiveBackKeeps(s.chain, s.copies, i, d, b, b + 1);
      FrontStays(s, i, b, b + 1, t);
      SettleSends(s.chain, c, d, s.complete, s.aborted);
      forall j | 0 <= j < |s.copies| ensures CopyOk(t.chain, t.copies[j], t.complete, t.aborted) {
        OthersKeep(s.chain, s.copies, i, d, b, b + 1, j, s.complete, s.aborted);
      }
    } else {
      assert s.copies[i := c] == s.copies;
    }
  }

  /** The copy's next buffer follows in its stream, since what lies between is missing to it. */
  lemma SettleSends(ch: Chain, c: Copy, d: Copy, complete: bool, aborted: bool)
    requires ListOk(ch) && CopyOk(ch, c, complete, aborted) && c.live && c.started && c.at.In?
    requires c.at.buf < |ch.data| && c.off == |ch.data[c.at.buf]| && (NextIn(ch.list, c.at.buf).In? || complete)
    requires var next := NextIn(ch.list, c.at.buf);
      d == c.(at := next, off := 0, sendComplete := complete && next == Nowhere)
    ensures SentOk(Masked(ch.data, d.missing), d, complete, aborted)
  {
    hide Flat, Offset;
    var own := Masked(ch.data, c.missing);
    var b := c.at.buf;
    NextIsListed(ch.list, b);
    OffsetStep(own, b);
    OffsetSkips(own, b + 1, if d.at.In? then d.at.buf else |own|);
    OffsetEnd(own);
  }

  // ---- a new copy

  /** No buffer behind the head has been freed. */
  predicate Gapless(ch: Chain) {
    ch.list != [] ==> ch.list[0] + |ch.list| == |ch.data|
  }

  lemma {:induction false} GaplessListed(list: seq<nat>, n: nat)
    requires Sorted(list) && list != []
    requires forall b :: b in list ==> b < n
    ensures list[0] + |list| <= n
    ensures list[0] + |list| == n <==> forall b :: list[0] <= b < n ==> b in list
    decreases |list|
  {
    var h := list[0];
    assert h in list;
    TailOf(list);
    if |list| == 1 {
      assert h + 1 < n ==> h + 1 !in list;
    } else {
      assert list[1] in list[1..];
      GaplessListed(list[1..], n);
      if list[1] == h + 1 {
        assert forall b :: h <= b < n ==> (b in list <==> b == h || b in list[1..]);
      } else {
        assert h + 1 !in list[1..];
        assert h + 1 !in list;
      }
    }
  }

  lemma WithCopyCounted(ch: Chain, copies: seq<Copy>, c: Copy)
    requires ListOk(ch) && Counted(ch, copies) && ch.list != [] && c.live && c.at == In(ch.list[0])
    ensures var t := ch.(count := Shifted(ch.count, ch.list[0], |ch.data|, 1));
            ListOk(t) && Counted(t, copies + [c])
  {
    hide Holders;
    forall b | b in ch.list
      ensures Holders(copies + [c], b) == Holders(copies, b) + 1
    {
      assert ch.list[0] <= b;
      OneMoreHolder(copies, c, b);
    }
  }

  lemma WithCopyKeeps(s: State)
    requires Inv(s) && s.chain.list != []
    ensures Inv(WithCopy(s))
  {
    hide Holders, LiveCopies, Counted, Flat, Offset;
    var t := WithCopy(s);
    var c := t.copies[|s.copies|];
    WithCopyCounted(s.chain, s.copies, c);
    OneMoreHolder(s.copies, c, 0);
    assert s.chain.list[0] in s.chain.list;
    OffsetInside(Masked(s.chain.data, c.missing), c.start);
    forall i | 0 <= i < |t.copies| ensures CopyOk(t.chain, t.copies[i], t.complete, t.aborted) {
      if i < |s.copies| {
        assert CopyOk(s.chain, s.copies[i], s.complete, s.aborted);
      }
    }
  }

  lemma AddFanoutKeeps(s: State)
    requires Inv(s) && Enabled(s, AddFanout)
    ensures Inv(CopyStep(s, AddFanout))
  {
    hide Holders, LiveCopies, Counted, SentOk, WithCopy;
    if s.chain.list == [] {
      forall i | 0 <= i < |s.copies| ensures !s.copies[i].live {
        var c := s.copies[i];
        assert CopyOk(s.chain, c, s.complete, s.aborted);
      }
      NoneLive(s.copies, |s.chain.data|);
      PushKeeps(s, 0);
      WithCopyKeeps(s.(chain := Pushed(s.chain, s.pending, 0), pending := []));
    } else {
      WithCopyKeeps(s);
    }
  }

  lemma ReceiverKeeps(s: State, a: Action)
    requires Inv(s) && Enabled(s, a) && OfReceiver(a)
    ensures Inv(Step(s, a))
  {
    hide CopyOk, ListOk, Counted, Pushed, LiveCopies;
    match a
    case Receive(_) =>
    case Push(check, bounded) => PushPendingKeeps(s);
    case Finish(abort) => FinishKeeps(s, abort);
    case StartParse => ParserKeeps(s, a);
    case Protect(_, _, _) => ProtectKeeps(s, a);
    case ParseOn(_, _) => ParserKeeps(s, a);
  }

  lemma CopyKeeps(s: State, a: Action)
    requires Inv(s) && Enabled(s, a) && !OfReceiver(a)
    ensures Inv(Step(s, a))
  {
    hide ListOk, Counted, Pushed, LiveCopies, SentOk, Advance, NextIn, GiveBack, Offset, Flat, Reaches;
    match a
    case AddFanout => AddFanoutKeeps(s);
    case Begin(i, skip) => if s.aborted { FailKeeps(s, i); } else { BeginKeeps(s, i, skip); }
    case Transfer(i, n) => TransferKeeps(s, i, n);
    case Settle(i) => SettleKeeps(s, i);
    case SendFails(i) => FailKeeps(s, i);
    case Free(i) => FreeKeeps(s, i);
    case Abort => AbortKeeps(s);
    case DisableQ2 =>
  }

  lemma AbortKeeps(s: State)
    requires Inv(s)
    ensures Inv(s.(aborted := true))
  {
    hide ListOk, Counted, LiveCopies, Offset, Flat, Reaches;
    assert forall j :: 0 <= j < |s.copies| ==> CopyOk(s.chain, s.copies[j], s.complete, s.aborted);
  }

  // ---------------------------------------------------------------- whole runs

  lemma {:induction false} RunKeepsInv(states: seq<State>, actions: seq<Action>, k: nat)
    requires Run(states, actions) && k < |states|
    ensures Inv(states[k])
    decreases k
  {
    hide Step, Enabled;
    if k == 0 {
      assert states[0].copies == [];
    } else {
      hide Inv;
      RunKeepsInv(states, actions, k - 1);
      StepKeepsInv(states[k - 1], actions[k - 1]);
    }
  }

  /** No buffer leaves the list while a live copy has yet to send from it: the count of a listed
      buffer is that of the copies at or before it, and of the references that stay. */
  lemma UnsentBuffersStay(states: seq<State>, actions: seq<Action>, k: nat, i: nat)
    requires Run(states, actions) && k < |states|
    requires Active(states[k], i) && states[k].copies[i].at.In?
    ensures var s := states[k];
      forall b :: s.copies[i].at.buf <= b < |s.chain.data| && b !in s.copies[i].missing ==>
        b in s.chain.list && b < |s.chain.count| && s.chain.count[b] >= Holders(s.copies, b) > 0
  {
    RunKeepsInv(states, actions, k);
    var s := states[k];
    hide Holders, SentOk, LiveCopies, Masked;
    assert CopyOk(s.chain, s.copies[i], s.complete, s.aborted);
    forall b | s.copies[i].at.buf <= b < |s.chain.data| && b !in s.copies[i].missing
      ensures b in s.chain.list && s.chain.count[b] >= Holders(s.copies, b) > 0
    {
      AHolderCounts(s.copies, i, b);
    }
  }

  /** What a copy has sent is a stretch of the one stream without the buffers missing to it, from where the
      copy began, and a copy that completes unaborted has sent that stream to its end. */
  lemma CopiesSendTheStream(states: seq<State>, actions: seq<Action>, k: nat, i: nat)
    requires Run(states, actions) && k < |states| && i < |states[k].copies|
    ensures var s := states[k]; var c := s.copies[i]; var own := Masked(s.chain.data, c.missing);
      && c.start < |own| && (forall b :: b in c.missing ==> c.start < b < |own|)
      && Origin(own, c) + |c.sent| <= |Flat(own)|
      && c.sent == Flat(own)[Origin(own, c)..][..|c.sent|]
      && (c.sendComplete && !s.aborted ==> s.complete && c.sent == Flat(own)[Origin(own, c)..])
  {
    RunKeepsInv(states, actions, k);
    var s := states[k];
    var c := s.copies[i];
    assert CopyOk(s.chain, c, s.complete, s.aborted);
    hide Inv, Run, Flat;
    var own := Masked(s.chain.data, c.missing);
    var o := Origin(own, c);
    assert Flat(own)[o..][..|c.sent|] == Flat(own)[o..o + |c.sent|];
  }

  /** What is missing to a copy is settled when it is added. */
  lemma StepKeepsCopies(s: State, a: Action, i: nat)
    requires Enabled(s, a) && i < |s.copies|
    ensures i < |Step(s, a).copies|
    ensures Step(s, a).copies[i].start == s.copies[i].start && Step(s, a).copies[i].missing == s.copies[i].missing
  {
    hide Enabled, ReceiverStep, CopyStep;
    if OfReceiver(a) {
      ReceiverKeepsCopies(s, a);
    } else {
      CopyKeepsCopies(s, a, i);
    }
  }

  lemma ReceiverKeepsCopies(s: State, a: Action)
    requires Enabled(s, a) && OfReceiver(a)
    ensures ReceiverStep(s, a).copies == s.copies
  {
    hide Shifted, Noted, CountUpTo;
  }

  lemma CopyKeepsCopies(s: State, a: Action, i: nat)
    requires Enabled(s, a) && !OfReceiver(a) && i < |s.copies|
    ensures i < |CopyStep(s, a).copies|
    ensures CopyStep(s, a).copies[i].start == s.copies[i].start
    ensures CopyStep(s, a).copies[i].missing == s.copies[i].missing
  {
    hide NextIn, GiveBack, Offset, Flat, Advance, Masked, Gaps, Shifted, Noted;
  }

  lemma RunStep(states: seq<State>, actions: seq<Action>, k: nat)
    requires Run(states, actions) && 0 < k < |states|
    ensures |states| == |actions| + 1
    ensures Enabled(states[k - 1], actions[k - 1]) && states[k] == Step(states[k - 1], actions[k - 1])
  {
    hide Step, Enabled, Initial;
  }

  lemma {:induction false} RunKeepsCopies(states: seq<State>, actions: seq<Action>, j: nat, k: nat, i: nat)
    requires Run(states, actions) && j <= k < |states| && i < |states[j].copies|
    ensures i < |states[k].copies|
    ensures states[k].copies[i].start == states[j].copies[i].start
    ensures states[k].copies[i].missing == states[j].copies[i].missing
    decreases k
  {
    hide *;
    if j < k {
      RunStep(states, actions, k);
      RunKeepsCopies(states, actions, j, k - 1, i);
      StepKeepsCopies(states[k - 1], actions[k - 1], i);
    }
  }

  lemma MaskedFront(data: seq<Buffer>, missing: set<nat>)
    requires data != []
    ensures var n := |data| - 1;
      Flat(Masked(data, missing)) == Flat(Masked(data[..n], missing)) + if n in missing then [] else data[n]
  {
    var n := |data| - 1;
    assert Masked(data, missing)[..n] == Masked(data[..n], missing);
  }

  lemma {:induction false} MaskedNoLonger(data: seq<Buffer>, missing: set<nat>)
    ensures |Flat(Masked(data, missing))| <= |Flat(data)|
    decreases |data|
  {
    if data != [] {
      MaskedFront(data, missing);
      MaskedNoLonger(data[..|data| - 1], missing);
    }
  }

  /** A missing buffer is missed in the stream. */
  lemma {:induction false} MaskedShorter(data: seq<Buffer>, missing: set<nat>, b: nat)
    requires b in missing && b < |data| && data[b] != []
    ensures |Flat(Masked(data, missing))| < |Flat(data)|
    decreases |data|
  {
    var n := |data| - 1;
    MaskedFront(data, missing);
    if b < n {
      MaskedShorter(data[..n], missing, b);
    } else {
      MaskedNoLonger(data[..n], missing);
    }
  }

  lemma MaskedBefore(data: seq<Buffer>, missing: set<nat>, b: nat)
    requires b <= |data| && forall m :: m in missing ==> b <= m
    ensures Offset(Masked(data, missing), b) == Offset(data, b)
    ensures missing == {} ==> Masked(data, missing) == data
  {
    assert Masked(data, missing)[..b] == data[..b];
  }

  /** No buffer behind the head is missing to a new copy exactly when the list has no gap. */
  lemma NoneMissing(s: State)
    requires Inv(s) && Enabled(s, AddFanout)
    ensures |Step(s, AddFanout).copies| == |s.copies| + 1
    ensures Step(s, AddFanout).copies[|s.copies|].missing == {} <==> Gapless(s.chain)
  {
    hide CopiesOk, Counted, LiveCopies, KeptOk, Holders;
    var c := Step(s, AddFanout).copies[|s.copies|];
    if s.chain.list == [] {
      assert Pushed(s.chain, s.pending, 0).list == [|s.chain.data|];
    } else {
      GaplessListed(s.chain.list, |s.chain.data|);
      var head := s.chain.list[0];
      if b :| head <= b < |s.chain.data| && b !in s.chain.list {
        assert b in c.missing;
      }
    }
  }

  /** A copy that completes unaborted has sent the stream from its beginning on, exactly when no buffer behind
      the head had been freed when it was added; otherwise it has sent less. */
  lemma CopyIsSoundIffGapless(states: seq<State>, actions: seq<Action>, j: nat, k: nat)
    requires Run(states, actions) && j < k < |states| && actions[j].AddFanout?
    ensures |states[j].copies| < |states[k].copies|
    ensures var s := states[k]; var c := s.copies[|states[j].copies|]; var stream := Flat(s.chain.data);
      c.start < |s.chain.data| &&
      (c.sendComplete && !s.aborted ==>
        && Origin(s.chain.data, c) + |c.sent| <= |stream|
        && (c.sent == stream[Origin(s.chain.data, c)..] <==> Gapless(states[j].chain))
        && (Origin(s.chain.data, c) + |c.sent| == |stream| <==> Gapless(states[j].chain)))
  {
    var i := |states[j].copies|;
    RunKeepsInv(states, actions, j);
    RunKeepsInv(states, actions, k);
    hide CopiesOk, Counted, LiveCopies, KeptOk, Flat, Offset, Masked;
    NoneMissing(states[j]);
    assert Enabled(states[j], actions[j]) && states[j + 1] == Step(states[j], actions[j]);
    RunKeepsCopies(states, actions, j + 1, k, i);
    CopiesSendTheStream(states, actions, k, i);
    var s := states[k];
    var c := s.copies[i];
    MaskedBefore(s.chain.data, c.missing, c.start);
    if b :| b in c.missing {
      MaskedShorter(s.chain.data, c.missing, b);
    }
  }

  /** All copies are there before any buffer is freed. */
  ghost predicate EarlyRun(states: seq<State>, actions: seq<Action>) {
    && Run(states, actions)
    && forall i :: 0 <= i < |actions| && actions[i].AddFanout? ==>
         |states[i].chain.list| == |states[i].chain.data|
  }

  lemma EarlyIsGapless(s: State)
    requires ListOk(s.chain) && |s.chain.list| == |s.chain.data|
    ensures Gapless(s.chain)
    ensures s.chain.list != [] ==> s.chain.list[0] == 0
  {
    if s.chain.list != [] {
      assert s.chain.list[0] in s.chain.list;
      GaplessListed(s.chain.list, |s.chain.data|);
    }
  }

  ghost predicate AllFromStart(s: State) {
    forall i :: 0 <= i < |s.copies| ==> s.copies[i].start == 0 && s.copies[i].missing == {}
  }

  lemma NewCopyFromStart(s: State)
    requires Inv(s) && Enabled(s, AddFanout) && |s.chain.list| == |s.chain.data|
    ensures |Step(s, AddFanout).copies| == |s.copies| + 1
    ensures Step(s, AddFanout).copies[|s.copies|].start == 0 && Step(s, AddFanout).copies[|s.copies|].missing == {}
  {
    EarlyIsGapless(s);
    NoneMissing(s);
    hide Inv, Gaps, Shifted;
  }

  lemma CopiesStay(s: State, a: Action)
    requires Enabled(s, a) && !a.AddFanout?
    ensures |Step(s, a).copies| == |s.copies|
  {
    hide NextIn, GiveBack, Offset, Flat, Advance, Masked, Gaps, Shifted, Noted, CountUpTo;
  }

  lemma StepFromStart(s: State, a: Action)
    requires Inv(s) && AllFromStart(s) && Enabled(s, a)
    requires a.AddFanout? ==> |s.chain.list| == |s.chain.data|
    ensures AllFromStart(Step(s, a))
  {
    hide Inv, Step, Enabled;
    var t := Step(s, a);
    if a.AddFanout? {
      NewCopyFromStart(s);
    } else {
      CopiesStay(s, a);
    }
    forall i | 0 <= i < |t.copies| ensures t.copies[i].start == 0 && t.copies[i].missing == {} {
      if i < |s.copies| {
        StepKeepsCopies(s, a, i);
      }
    }
  }

  lemma {:induction false} EarlyRunKeeps(states: seq<State>, actions: seq<Action>, k: nat)
    requires EarlyRun(states, actions) && k < |states|
    ensures AllFromStart(states[k])
    decreases k
  {
    hide Step, Enabled, Inv;
    if k > 0 {
      hide AllFromStart, Initial;
      EarlyRunKeeps(states, actions, k - 1);
      RunKeepsInv(states, actions, k - 1);
      StepFromStart(states[k - 1], actions[k - 1]);
    }
  }

  /** When all copies are added before any buffer is freed, each has sent a prefix of the same
      content, less the section it skipped; all of it when it completes unaborted. */
  lemma EarlyCopiesSendPrefixes(states: seq<State>, actions: seq<Action>, k: nat, i: nat)
    requires EarlyRun(states, actions) && k < |states| && i < |states[k].copies|
    ensures var s := states[k]; var c := s.copies[i]; var stream := Flat(s.chain.data);
      && c.skip <= |stream|
      && c.sent <= stream[c.skip..]
      && (c.sendComplete && !s.aborted ==> c.sent == stream[c.skip..])
  {
    EarlyRunKeeps(states, actions, k);
    CopiesSendTheStream(states, actions, k, i);
    var s := states[k];
    var c := s.copies[i];
    hide Inv;
    MaskedBefore(s.chain.data, c.missing, 0);
    assert s.chain.data[..0] == [];
    assert Origin(s.chain.data, c) == c.skip;
  }

  // ---------------------------------------------------------------- the parser's guard

  /** Freeing this copy takes away the buffer the parser stopped in. */
  predicate Strands(s: State, a: Action) {
    && a.Free? && Active(s, a.i) && s.parser.at.In?
    && s.parser.at.buf in s.chain.list && s.parser.at.buf < |s.chain.extra|
    && Holds(s.copies[a.i], s.parser.at.buf)
    && Holders(s.copies, s.parser.at.buf) == 1 && s.chain.extra[s.parser.at.buf] == 0
  }

  predicate ParserLost(s: State) {
    s.parser.at.In? && s.parser.at.buf !in s.chain.list
  }

  /** Which buffers a step takes off the list. */
  lemma StepListed(s: State, a: Action, b: nat)
    requires Inv(s) && Enabled(s, a) && b < |s.chain.data|
    ensures b in Step(s, a).chain.list <==>
      b in s.chain.list &&
      !(a.Free? && Holds(s.copies[a.i], b) && Holders(s.copies, b) == 1 && s.chain.extra[b] == 0) &&
      !(a.Settle? && Step(s, a).chain != s.chain && s.copies[a.i].at == In(b) && s.chain.count[b] == 1)
  {
    if a.Free? {
      FreeLists(s, a.i, b);
    } else if a.Settle? {
      SettleLists(s, a.i, b);
    } else {
      hide CopiesOk, LiveCopies, KeptOk, NextIn, Offset, Flat, Advance, Masked, Gaps, Holders, Sorted, Counted, GiveBack;
    }
  }

  lemma FreeLists(s: State, i: nat, b: nat)
    requires Inv(s) && Enabled(s, Free(i)) && b < |s.chain.data|
    ensures b in CopyStep(s, Free(i)).chain.list <==>
      b in s.chain.list && !(Holds(s.copies[i], b) && Holders(s.copies, b) == 1 && s.chain.extra[b] == 0)
  {
    hide CopiesOk, LiveCopies, KeptOk, Holders, Sorted;
    if s.copies[i].at.In? {
      ReleasedMembers(s.chain.list, s.chain.count, s.copies[i].at.buf, |s.chain.data|);
      if Holds(s.copies[i], b) {
        AHolderCounts(s.copies, i, b);
      }
    }
  }

  lemma SettleLists(s: State, i: nat, b: nat)
    requires Inv(s) && Enabled(s, Settle(i)) && b < |s.chain.data|
    ensures var t := CopyStep(s, Settle(i));
      b in t.chain.list <==>
      b in s.chain.list && !(t.chain != s.chain && s.copies[i].at == In(b) && s.chain.count[b] == 1)
  {
    hide CopiesOk, LiveCopies, KeptOk, Counted, NextIn, Sorted;
    ReleasedMembers(s.chain.list, s.chain.count, s.copies[i].at.buf, s.copies[i].at.buf + 1);
  }

  lemma {:induction false} ReleasedFewer(list: seq<nat>, count: seq<int>, from: nat, to: nat)
    ensures |Released(list, count, from, to)| <= |list|
    ensures |Released(list, count, from, to)| == |list| ==> Released(list, count, from, to) == list
    decreases |list|
  {
    if list != [] {
      ReleasedFewer(list[1..], count, from, to);
      assert list == [list[0]] + list[1..];
    }
  }

  /** Sending counts every buffer it frees. */
  lemma SettleCounts(s: State, a: Action)
    requires Enabled(s, a) && a.Settle? && Step(s, a).parser.freed == s.parser.freed
    ensures Step(s, a).chain.list == s.chain.list
  {
    hide NextIn, Offset, Flat, Advance, Masked, Shifted;
    ReleasedFewer(s.chain.list, s.chain.count, s.copies[a.i].at.buf, s.copies[a.i].at.buf + 1);
  }

  /** The parser's place: it moves only to listed buffers. */
  lemma StepParser(s: State, a: Action)
    requires Inv(s) && Enabled(s, a)
    ensures Step(s, a).parser.freed >= s.parser.freed
    ensures a.StartParse? || a.Protect? || a.ParseOn? ==>
      !ParserLost(s) && Step(s, a).chain.list == s.chain.list && !ParserLost(Step(s, a))
    ensures !(a.StartParse? || a.Protect? || a.ParseOn?) ==> Step(s, a).parser.at == s.parser.at
  {
    hide CopiesOk, Counted, LiveCopies, KeptOk, Offset, Flat, Advance, Masked, Gaps, GiveBack, Shifted, Noted, CountUpTo, NextIn;
    if a.Protect? {
      NextIsListed(s.chain.list, a.last);
    }
  }

  /** In every run, while no buffer was freed by sending, the buffer the parser stopped in is gone exactly when
      a copy was freed that alone held it. */
  lemma {:induction false} GuardIsEnough(states: seq<State>, actions: seq<Action>, k: nat)
    requires Run(states, actions) && k < |states| && states[k].parser.freed == 0
    ensures ParserLost(states[k]) <==> exists j :: 0 <= j < k && Strands(states[j], actions[j])
    decreases k
  {
    hide Inv, Step, Enabled, Strands;
    if k > 0 {
      hide ParserLost, Initial;
      var s, a := states[k - 1], actions[k - 1];
      RunKeepsInv(states, actions, k - 1);
      StepParser(s, a);
      GuardIsEnough(states, actions, k - 1);
      GuardStep(s, a);
      OneMore(states, actions, k);
    }
  }

  lemma OneMore(states: seq<State>, actions: seq<Action>, k: nat)
    requires 0 < k < |states| == |actions| + 1
    ensures (exists j :: 0 <= j < k && Strands(states[j], actions[j])) <==>
      (exists j :: 0 <= j < k - 1 && Strands(states[j], actions[j])) || Strands(states[k - 1], actions[k - 1])
  {
    hide Strands;
    if j :| 0 <= j < k && Strands(states[j], actions[j]) && j < k - 1 {
    }
  }

  lemma GuardStep(s: State, a: Action)
    requires Inv(s) && Enabled(s, a) && Step(s, a).parser.freed == 0
    ensures ParserLost(Step(s, a)) <==> ParserLost(s) || Strands(s, a)
  {
    StepParser(s, a);
    if a.StartParse? || a.Protect? || a.ParseOn? {
      ParserStepData(s, a);
    } else if s.parser.at.In? {
      StepListed(s, a, s.parser.at.buf);
      if a.Settle? {
        SettleCounts(s, a);
      }
      hide Inv, Step, Holders;
    }
  }

  lemma ParserStepData(s: State, a: Action)
    requires Enabled(s, a) && (a.StartParse? || a.Protect? || a.ParseOn?)
    ensures Step(s, a).chain.data == s.chain.data && Step(s, a).chain.list == s.chain.list
  {
    hide NextIn, CountUpTo, Shifted, Noted;
  }

  // ---------------------------------------------------------------- Q2

  ghost predicate Q2Ok(s: State) {
    && s.q2.kept <= |s.chain.list|
    && (s.q2.holdoff ==> !s.q2.off && Unprotected(s) >= Q2_LOWER)
  }

  lemma StepKeepsInv(s: State, a: Action)
    requires Inv(s) && Enabled(s, a)
    ensures Inv(Step(s, a))
  {
    hide Inv, Step, Enabled;
    if OfReceiver(a) {
      ReceiverKeeps(s, a);
    } else {
      CopyKeeps(s, a);
    }
  }

  /** A header parsed too late: receiving is held off, and the newly protected buffers leave fewer than the lower
      limit. */
  predicate LateParse(s: State, a: Action) {
    a.Protect? && s.q2.holdoff && |s.chain.list| - CountUpTo(s.chain.list, a.last) < Q2_LOWER
  }

  lemma Q2Receiver(s: State, a: Action)
    requires Q2Ok(s) && Enabled(s, a) && OfReceiver(a)
    ensures Q2Ok(Step(s, a)) <==> !LateParse(s, a)
  {
    hide Shifted, Noted, CopyStep;
  }

  lemma Q2Copies(s: State, a: Action)
    requires Q2Ok(s) && Enabled(s, a) && !OfReceiver(a) && Step(s, a).q2.kept <= |Step(s, a).chain.list|
    ensures Q2Ok(Step(s, a))
  {
    hide NextIn, Released, Offset, Flat, Advance, Shifted, Noted, ReceiverStep, Masked, Gaps;
  }

  /** Each step keeps the holdoff right, except that of parsing a header too late. */
  lemma Q2StepExact(s: State, a: Action)
    requires Inv(s) && Q2Ok(s) && Enabled(s, a)
    ensures Q2Ok(Step(s, a)) <==> !LateParse(s, a)
  {
    StepKeepsInv(s, a);
    assert Step(s, a).q2.kept <= |Step(s, a).chain.list|;
    hide Inv, Step, Q2Ok, Enabled;
    if OfReceiver(a) {
      Q2Receiver(s, a);
    } else {
      Q2Copies(s, a);
    }
  }

  /** Receiving is held off exactly by a checked push of a bounded link that leaves 64 unprotected buffers or more, and
      resumed exactly when the holdoff is disabled or fewer than 32 are left once a buffer or a copy is given up. */
  lemma HoldoffIsHysteresis(s: State, a: Action)
    requires Inv(s) && Q2Ok(s) && Enabled(s, a)
    ensures !s.q2.holdoff ==>
      (Step(s, a).q2.holdoff <==> a == Push(true, true) && !s.q2.off && |s.chain.list| + 1 - s.q2.kept >= 64)
    ensures s.q2.holdoff ==>
      (!Step(s, a).q2.holdoff <==>
        a.DisableQ2? || ((a.Free? || a.Settle?) && |Step(s, a).chain.list| - s.q2.kept < 32))
  {
    hide Inv, CopyOk, Counted, LiveCopies, NextIn, Released, Offset, Flat, Reaches, Advance, Masked, Gaps, CountUpTo;
  }

  /** Once the content has been aborted, whoever does it, it stays so, and what a copy has sent does not grow. */
  lemma {:induction false} AbortIsFinal(states: seq<State>, actions: seq<Action>, j: nat, k: nat, i: nat)
    requires Run(states, actions) && j < k < |states|
    requires actions[j].Abort? || actions[j].SendFails? || actions[j] == Finish(true)
    ensures states[k].aborted
    ensures i < |states[j + 1].copies| ==> i < |states[k].copies| && states[k].copies[i].sent == states[j + 1].copies[i].sent
    decreases k
  {
    hide Inv, Enabled, Step, Initial;
    AbortStep(states[k - 1], actions[k - 1], i);
    if k - 1 > j {
      AbortIsFinal(states, actions, j, k - 1, i);
    }
  }

  lemma AbortStep(s: State, a: Action, i: nat)
    requires Enabled(s, a)
    ensures s.aborted || a.Abort? || a.SendFails? || a == Finish(true) ==> Step(s, a).aborted
    ensures s.aborted && i < |s.copies| ==> i < |Step(s, a).copies| && Step(s, a).copies[i].sent == s.copies[i].sent
  {
    hide NextIn, Offset, Flat, Advance, Masked, Gaps, CountUpTo, GiveBack, Shifted, Noted;
  }

  /** Once the holdoff has been disabled, receiving is never held off again. */
  lemma {:induction false} DisabledForGood(states: seq<State>, actions: seq<Action>, j: nat, k: nat)
    requires Run(states, actions) && j < k < |states| && actions[j].DisableQ2?
    ensures states[k].q2.off && !states[k].q2.holdoff
    decreases k
  {
    hide Inv, Enabled, Step, Initial;
    OffStep(states[k - 1], actions[k - 1]);
    if k - 1 > j {
      DisabledForGood(states, actions, j, k - 1);
    } else {
      OffFirst(states, actions, j);
    }
  }

  lemma OffStep(s: State, a: Action)
    requires Enabled(s, a)
    ensures s.q2.off && !s.q2.holdoff ==> Step(s, a).q2.off && !Step(s, a).q2.holdoff
    ensures a.DisableQ2? && (s.q2.holdoff ==> !s.q2.off) ==> Step(s, a).q2.off && !Step(s, a).q2.holdoff
    ensures (s.q2.holdoff ==> !s.q2.off) ==> (Step(s, a).q2.holdoff ==> !Step(s, a).q2.off)
  {
    hide NextIn, Offset, Flat, Advance, Masked, Gaps, CountUpTo, GiveBack, Shifted, Noted;
  }

  /** Receiving is never held off while the holdoff is disabled. */
  lemma {:induction false} OffFirst(states: seq<State>, actions: seq<Action>, k: nat)
    requires Run(states, actions) && k < |states|
    ensures states[k].q2.holdoff ==> !states[k].q2.off
    decreases k
  {
    hide Inv, Enabled, Step;
    if k > 0 {
      OffFirst(states, actions, k - 1);
      OffStep(states[k - 1], actions[k - 1]);
    }
  }

  /** Parsing more headers protects no fewer buffers. */
  lemma KeptGrows(s: State, a: Action)
    requires Inv(s) && Enabled(s, a) && a.Protect?
    ensures s.q2.kept <= Step(s, a).q2.kept
  {
    hide Counted, CopyOk, LiveCopies, NextIn, Shifted, Noted;
    CountUpToIs(s.chain.list, a.last);
  }

  /** Pushes without a check: of a buffer not full, because nothing more has come, and of the last one. */
  function Unchecked(actions: seq<Action>): nat {
    if actions == [] then 0
    else
      var a := actions[|actions| - 1];
      Unchecked(actions[..|actions| - 1]) + if a.Finish? || (a.Push? && !a.check) then 1 else 0
  }

  /** The receiver keeps to the holdoff: it pushes only while not held off, and for a bounded link. */
  ghost predicate KeepsHoldoff(states: seq<State>, actions: seq<Action>)
    requires |states| == |actions| + 1
  {
    && !states[0].q2.off
    && forall i :: 0 <= i < |actions| ==>
         && !actions[i].DisableQ2?
         && (actions[i].Push? ==> actions[i].bounded && !states[i].q2.holdoff)
  }

  /** How many unprotected buffers may wait. */
  function Most(s: State, unchecked: nat): nat {
    63 + unchecked + if s.q2.holdoff then 1 else 0
  }

  /** The step leaves no more waiting than it may. */
  predicate StaysWithin(s: State, a: Action, unchecked: nat)
    requires Enabled(s, a)
  {
    var t := Step(s, a);
    && !t.q2.off
    && |t.chain.list| - t.q2.kept <= Most(t, unchecked + if a.Finish? || (a.Push? && !a.check) then 1 else 0)
  }

  lemma ReceiverWithin(s: State, a: Action, unchecked: nat)
    requires Inv(s) && Enabled(s, a) && !s.q2.off && OfReceiver(a) && (a.Push? ==> a.bounded && !s.q2.holdoff)
    requires |s.chain.list| - s.q2.kept <= Most(s, unchecked)
    ensures StaysWithin(s, a, unchecked)
  {
    if a.Protect? {
      KeptGrows(s, a);
    }
    hide Inv, CopyStep, NextIn, CountUpTo, Shifted, Noted;
  }

  lemma CopiesWithin(s: State, a: Action, unchecked: nat)
    requires Inv(s) && Enabled(s, a) && !s.q2.off && !OfReceiver(a) && !a.DisableQ2?
    requires |s.chain.list| - s.q2.kept <= Most(s, unchecked)
    ensures StaysWithin(s, a, unchecked)
  {
    if a.Settle? || a.Free? {
      GivesUpWithin(s, a, unchecked);
    } else {
      assert KeptOk(s);
      hide Inv, ReceiverStep, CopyOk, NextIn, Offset, Flat, Advance, Masked, Gaps, Shifted, Noted, Settled, Freed, KeptOk;
    }
  }

  /** Giving up buffers ends the holdoff only when few are left. */
  lemma GivesUpWithin(s: State, a: Action, unchecked: nat)
    requires Inv(s) && Enabled(s, a) && !s.q2.off && (a.Settle? || a.Free?)
    requires |s.chain.list| - s.q2.kept <= Most(s, unchecked)
    ensures StaysWithin(s, a, unchecked)
  {
    ListShrinks(s, a);
    Unblocks(s, a);
    hide Inv, Step;
  }

  lemma Unblocks(s: State, a: Action)
    requires Enabled(s, a) && (a.Settle? || a.Free?)
    ensures var t := Step(s, a);
      && t.q2.off == s.q2.off && (t.q2.holdoff ==> s.q2.holdoff)
      && (s.q2.holdoff && !t.q2.holdoff ==> s.q2.off || |t.chain.list| - s.q2.kept < 32)
  {
    hide NextIn, GiveBack, Masked, Offset, Flat;
  }

  lemma ListShrinks(s: State, a: Action)
    requires Inv(s) && Enabled(s, a) && (a.Settle? || a.Free?)
    ensures |Step(s, a).chain.list| <= |s.chain.list| && Step(s, a).q2.kept == s.q2.kept
  {
    hide Inv, NextIn, Released, Shifted;
    forall from: nat, to: nat ensures |Released(s.chain.list, s.chain.count, from, to)| <= |s.chain.list| {
      ReleasedFewer(s.chain.list, s.chain.count, from, to);
    }
  }

  /** In every run whose receiver keeps to the holdoff, and with Q2 on, at most 64 unprotected buffers wait, and one more
      for each push without a check; one less while receiving is not held off. */
  lemma {:induction false} FewBuffersWait(states: seq<State>, actions: seq<Action>, k: nat)
    requires Run(states, actions) && KeepsHoldoff(states, actions) && k < |states|
    ensures var s := states[k];
      !s.q2.off && |s.chain.list| - s.q2.kept <= 63 + Unchecked(actions[..k]) + if s.q2.holdoff then 1 else 0
    decreases k
  {
    hide Step, Enabled, Inv;
    if k > 0 {
      FewBuffersWait(states, actions, k - 1);
      RunKeepsInv(states, actions, k - 1);
      var s, a := states[k - 1], actions[k - 1];
      if OfReceiver(a) {
        ReceiverWithin(s, a, Unchecked(actions[..k - 1]));
      } else {
        CopiesWithin(s, a, Unchecked(actions[..k - 1]));
      }
      assert actions[..k][..k - 1] == actions[..k - 1];
    }
  }

  /** In every run that parses headers only while receiving is not held off, the protected buffers are
      never more than the listed ones, and receiving is held off only with enough buffers left. */
  lemma {:induction false} Q2Run(states: seq<State>, actions: seq<Action>, k: nat)
    requires Run(states, actions) && k < |states|
    requires forall i :: 0 <= i < |actions| && actions[i].Protect? ==> !states[i].q2.holdoff
    ensures Q2Ok(states[k])
    decreases k
  {
    hide Step, Enabled, Inv;
    if k > 0 {
      Q2Run(states, actions, k - 1);
      RunKeepsInv(states, actions, k - 1);
      Q2StepExact(states[k - 1], actions[k - 1]);
    }
  }

  /** Held off with too few buffers left to wait for. */
  predicate Stranded(s: State) {
    s.q2.holdoff && !s.q2.off && Unprotected(s) < Q2_LOWER
  }

  /** A header parsed too late strands the receiver. */
  lemma LateParseStrands(s: State, a: Action)
    requires Inv(s) && Q2Ok(s) && Enabled(s, a)
    ensures Stranded(Step(s, a)) <==> LateParse(s, a)
  {
    Q2StepExact(s, a);
    hide Inv, CopyOk, Counted, LiveCopies, NextIn, Released, Offset, Flat, Reaches, Advance, Masked, Gaps, CountUpTo;
    if LateParse(s, a) {
      LateParseHolds(s, a);
    }
  }

  lemma LateParseHolds(s: State, a: Action)
    requires Q2Ok(s) && Enabled(s, a) && LateParse(s, a)
    ensures Stranded(Step(s, a))
  {
    hide Shifted, Noted, CopyStep, CountUpTo, NextIn;
  }

  /** A stranded receiver resumes exactly when sending frees a buffer or the holdoff is disabled; until then it stays
      stranded, unless it is handed more buffers. */
  lemma StrandedUntil(s: State, a: Action)
    requires Stranded(s) && Enabled(s, a)
    ensures !Step(s, a).q2.holdoff <==> a.DisableQ2? || (a.Settle? && |Step(s, a).chain.list| < |s.chain.list|)
    ensures Step(s, a).q2.holdoff && !a.Push? && !a.Finish? && !a.Protect? && s.q2.kept <= |s.chain.list| ==>
      Stranded(Step(s, a))
  {
    hide NextIn, Offset, Flat, Advance, Masked, Gaps, CountUpTo, Shifted, Noted;
    if a.Free? && s.copies[a.i].at.In? {
      ReleasedFewer(s.chain.list, s.chain.count, s.copies[a.i].at.buf, |s.chain.data|);
    }
    if a.Settle? {
      ReleasedFewer(s.chain.list, s.chain.count, s.copies[a.i].at.buf, s.copies[a.i].at.buf + 1);
    }
  }

  // ---------------------------------------------------------------- the walks over the list

  lemma {:induction false} ReleasedFurther(list: seq<nat>, count: seq<int>, from: nat, b: nat)
    requires from <= b
    ensures Released(Released(list, count, from, b), Shifted(count, from, b, -1), b, b + 1) ==
            Released(list, count, from, b + 1)
    decreases |list|
  {
    if list != [] {
      ReleasedFurther(list[1..], count, from, b);
      var rest := Released(list[1..], count, from, b);
      assert ([list[0]] + rest)[1..] == rest;
    }
  }

  lemma GiveBackFurther(ch: Chain, from: nat, b: nat)
    requires from <= b < |ch.count|
    ensures GiveBack(GiveBack(ch, from, b), b, b + 1) == GiveBack(ch, from, b + 1)
  {
    ReleasedFurther(ch.list, ch.count, from, b);
    assert Shifted(Shifted(ch.count, from, b, -1), b, b + 1, -1) == Shifted(ch.count, from, b + 1, -1);
  }

  lemma {:induction false} GiveBackNothing(ch: Chain, from: nat)
    ensures GiveBack(ch, from, from) == ch
  {
    NothingReleased(ch.list, ch.count, from);
    assert Shifted(ch.count, from, from, -1) == ch.count;
  }

  lemma {:induction false} NothingReleased(list: seq<nat>, count: seq<int>, from: nat)
    ensures Released(list, count, from, from) == list
    decreases |list|
  {
    if list != [] {
      NothingReleased(list[1..], count, from);
      assert list == [list[0]] + list[1..];
    }
  }

  /** The same chain, but for the counts of buffers that are not listed. */
  ghost predicate SameChain(a: Chain, b: Chain) {
    && a.data == b.data && a.list == b.list && a.extra == b.extra && |a.count| == |b.count|
    && forall k :: k in a.list && k < |a.count| ==> a.count[k] == b.count[k]
  }

  /** Where the walk of a freed copy has come to: all before `b` is given back. */
  ghost predicate Walked(was: Chain, ch: Chain, at: nat, b: nat) {
    && ListOk(was) && at <= b <= |was.data| && ListOk(ch) && SameChain(ch, GiveBack(was, at, b))
    && forall k :: b <= k ==> (k in ch.list <==> k in was.list)
  }

  lemma WalkStarts(was: Chain, at: nat)
    requires ListOk(was) && at <= |was.data|
    ensures Walked(was, was, at, at)
  {
    GiveBackNothing(was, at);
  }

  /** Nothing is listed between: there is nothing to give back. */
  lemma WalkSkips(was: Chain, ch: Chain, at: nat, b: nat, c: nat)
    requires Walked(was, ch, at, b) && b <= c <= |was.data| && forall k :: b <= k < c ==> k !in was.list
    ensures Walked(was, ch, at, c)
  {
    hide Sorted;
    ReleasedMembers(was.list, was.count, at, b);
    SameReleased(was.list, was.count, at, b, c);
  }

  lemma {:induction false} SameReleased(list: seq<nat>, count: seq<int>, at: nat, b: nat, c: nat)
    requires b <= c && forall k :: k in list ==> !(b <= k < c)
    ensures Released(list, count, at, b) == Released(list, count, at, c)
    decreases |list|
  {
    if list != [] {
      assert list[0] in list && forall k :: k in list[1..] ==> k in list;
      SameReleased(list[1..], count, at, b, c);
    }
  }

  lemma WalkStep(was: Chain, ch: Chain, at: nat, b: nat)
    requires Walked(was, ch, at, b) && b in ch.list && b < |was.data|
    ensures Walked(was, GiveBack(ch, b, b + 1), at, b + 1)
  {
    hide Sorted;
    var back := GiveBack(was, at, b);
    ReleasedMembers(ch.list, ch.count, b, b + 1);
    ReleasedSame(ch.list, ch.count, back.count, b, b + 1);
    GiveBackFurther(was, at, b);
    ReleasedMembers(back.list, back.count, b, b + 1);
  }

  lemma {:induction false} ReleasedSame(list: seq<nat>, x: seq<int>, y: seq<int>, from: nat, to: nat)
    requires |x| == |y| && forall k :: k in list && k < |x| ==> x[k] == y[k]
    ensures Released(list, x, from, to) == Released(list, y, from, to)
    decreases |list|
  {
    if list != [] {
      assert list[0] in list && forall k :: k in list[1..] ==> k in list;
      ReleasedSame(list[1..], x, y, from, to);
    }
  }

  /** The content as its lock holder walks it. */
  class Content {
    var chain: Chain

    /** Takes the buffer out of the list, if this was its last reference. */
    method DropReference(b: nat)
      requires b < |chain.count|
      modifies this
      ensures chain == GiveBack(old(chain), b, b + 1)
    {
      var ch := chain;
      var list: seq<nat> := [];
      for k := 0 to |ch.list|
        invariant list == Released(ch.list[..k], ch.count, b, b + 1)
      {
        ReleasedSnoc(ch.list[..k], ch.list[k], ch.count, b, b + 1);
        assert ch.list[..k + 1] == ch.list[..k] + [ch.list[k]];
        if !(ch.count[b] == 1 && ch.list[k] == b) {
          list := list + [ch.list[k]];
        }
      }
      assert ch.list[..|ch.list|] == ch.list;
      assert ch.count[b := ch.count[b] - 1] == Shifted(ch.count, b, b + 1, -1);
      chain := ch.(list := list, count := ch.count[b := ch.count[b] - 1]);
    }

    /** A freed copy walks the list from its buffer to the end. */
    method ReleaseFrom(at: nat)
      requires ListOk(chain) && at in chain.list
      modifies this
      ensures SameChain(chain, GiveBack(old(chain), at, |old(chain.data)|))
    {
      hide GiveBack, NextIn, Sorted;
      ghost var was := chain;
      ghost var b := at;
      var buf := In(at);
      WalkStarts(was, at);
      while buf.In?
        invariant Walked(was, chain, at, b) && at <= b <= |was.data|
        invariant buf.In? ==> buf.buf == b && b < |was.data| && b in chain.list
        invariant buf.Nowhere? ==> b == |was.data|
        decreases |was.data| - b, buf.In?
      {
        NextIsListed(chain.list, buf.buf);
        var next := NextIn(chain.list, buf.buf);
        WalkStep(was, chain, at, b);
        DropReference(buf.buf);
        WalkSkips(was, chain, at, b + 1, if next.In? then next.buf else |was.data|);
        b := if next.In? then next.buf else |was.data|;
        buf := next;
      }
    }
  }

  lemma {:induction false} ReleasedSnoc(list: seq<nat>, b: nat, count: seq<int>, from: nat, to: nat)
    ensures Released(list + [b], count, from, to) ==
            Released(list, count, from, to) + if LastReference(count, from, to, b) then [] else [b]
    decreases |list|
  {
    if list == [] {
      assert ([] + [b])[1..] == [];
    } else {
      ReleasedSnoc(list[1..], b, count, from, to);
      assert (list + [b])[1..] == list[1..] + [b];
    }
  }

  /** Such a state: receiving is held off at 64 buffers, and 33 of them turn out to hold headers. */
  lemma LateParseExample(s: State)
    requires s.chain == Chain(seq(64, k => [0]), seq(64, k => k), seq(64, k => 0), seq(64, k => 0))
    requires s.q2 == Q2(true, false, 0) && s.parser == Parser(In(0), false, 0)
    requires s.copies == [] && s.fanout == 0 && !s.complete
    ensures Inv(s) && Q2Ok(s) && Enabled(s, Protect(0, 32, 32)) && Stranded(Step(s, Protect(0, 32, 32)))
  {
    forall b: nat | b < 64 ensures b in s.chain.list {
      assert s.chain.list[b] == b;
    }
    CountUpToIs(s.chain.list, 32);
    assert s.chain.list[32] == 32;
    LateParseStrands(s, Protect(0, 32, 32));
  }
}
