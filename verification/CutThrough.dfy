/** The unicast cut-through ring: one producer and one consumer exchange lists of
    buffers through a ring of slots, with no lock, and wake each other up.

    Every read or write of an index or flag of the other side, and every wake-up, is a step of its own; a side's
    moves of buffers in a slot that only it may touch go with the step before or behind. So a run is any
    interleaving of the two sides. */
module CutThrough {

  const SLOT_COUNT := 8
  const RESUME_THRESHOLD := 4
  const SLOT_BUF_LIMIT := 16

  type Buffer = seq<int>
  type Slots = s: seq<seq<Buffer>> | |s| == SLOT_COUNT witness [[], [], [], [], [], [], [], []]
  type Index = i: nat | i < SLOT_COUNT

  /** The difference of two ring indices, in unsigned 32-bit arithmetic. */
  function Distance(a: Index, b: Index): (d: Index)
    ensures d == if b <= a then a - b else a + SLOT_COUNT - b
  {
    (a - b) % 0x1_0000_0000 % SLOT_COUNT
  }

  function After(i: Index): (j: Index)
    ensures j == if i == SLOT_COUNT - 1 then 0 else i + 1
  {
    (i + 1) % SLOT_COUNT
  }

  /** The buffers of `n` slots, in ring order from slot `c`. */
  function RingFrom(slots: Slots, c: Index, n: nat): seq<Buffer>
    decreases n
  {
    if n == 0 then [] else slots[c] + RingFrom(slots, After(c), n - 1)
  }

  /** Where the producer is. */
  datatype ProducerAt =
    | PIdle
    | Ready                     // polled the ring and found room
    | PBegin(pass: bool)        // about to look at the ring, for a receive pass or a poll
    | PLoop                     // receive pass: loop test
    | Filling(room: nat)        // moving link data into the slot, `room` buffers to go
    | Publish(link: bool, ended: bool)
    | Recheck(ended: bool)
    | Ending                    // the link reported its end
    | PTail                     // end of the pass: activate the consumer

  /** Where the consumer is. */
  datatype ConsumerAt =
    | CIdle
    | Test                      // loop test
    | Draining                  // taking buffers out of the slot
    | Left                      // done with the slot, about to see whether to go on
    | Finish                    // after the loop: is the content aborted
    | FinishComplete            // or has all of it come
    | FinishEmpty               // and is the ring empty
    | Sent                      // about to say that all is sent
    | CTail                     // end of the pass: are few slots full
    | Notify                    // about to activate the producer

  /** The shared ring. */
  datatype Ring = Ring(slots: Slots, produce: Index, consume: Index)

  /** The producer: `listens` when its activation is registered, `woken` when one is pending. */
  datatype Producer = Producer(at: ProducerAt, stalled: bool, moved: bool, listens: bool, woken: bool)

  /** The consumer: an outgoing link (`sending`, `limit` counts octets) or an adaptor that takes buffers. */
  datatype Consumer = Consumer(at: ConsumerAt, sending: bool, limit: nat, held: bool, sawEmpty: bool,
                               moved: bool, listens: bool, woken: bool)

  datatype Flags = Flags(aborted: bool, complete: bool, sendComplete: bool)

  /** Every buffer moved so far, in order: into the ring, out of it, and on to the receiver. */
  datatype History = History(produced: seq<Buffer>, consumed: seq<Buffer>, delivered: seq<Buffer>)

  datatype State = State(ring: Ring, flags: Flags, p: Producer, c: Consumer, h: History)

  datatype Action =
    // the producer
    | Poll | Put(list: seq<Buffer>) | Complete
    | ReceivePass | Look | ProducerLoop | Receive(buf: Buffer) | NoMore(ended: bool)
    | Advance | LookAgain | MarkComplete | WakeConsumer
    // the consumer
    | SendPass(capacity: nat) | TakePass(count: nat)
    | ConsumerLoop | Drain | LeaveSlot | ReadHeld | ReadAborted | ReadComplete | CompareIndices | MarkSent
    | ReadFull | WakeProducer
    // anyone
    | Abort | ForgetProducer | ForgetConsumer

  function FullSlots(r: Ring): Index {
    Distance(r.produce, r.consume)
  }

  /** The ring is full when one slot is left between the indices. */
  predicate Full(r: Ring) {
    Distance(r.consume, r.produce) == 1
  }

  predicate Initial(s: State) {
    && s.ring == Ring([[], [], [], [], [], [], [], []], 0, 0)
    && s.flags == Flags(false, false, false)
    && s.p.at == PIdle && !s.p.stalled && !s.p.moved && s.p.listens
    && s.c.at == CIdle && !s.c.sawEmpty && !s.c.moved && s.c.listens
    && s.h == History([], [], [])
  }

  predicate Enabled(s: State, a: Action) {
    match a
    case Poll => s.p.at == PIdle && !s.flags.complete
    case Put(_) => s.p.at == Ready
    case Complete => s.p.at == PIdle
    case ReceivePass => s.p.at == PIdle
    case Look => s.p.at.PBegin?
    case ProducerLoop => s.p.at == PLoop
    case Receive(_) => s.p.at.Filling? && s.p.at.room > 0
    case NoMore(_) => s.p.at.Filling?
    case Advance => s.p.at.Publish?
    case LookAgain => s.p.at.Recheck?
    case MarkComplete => s.p.at == Ending
    case WakeConsumer => s.p.at == PTail
    case SendPass(_) => s.c.at == CIdle && s.c.sending
    case TakePass(_) => s.c.at == CIdle && !s.c.sending
    case ConsumerLoop => s.c.at == Test
    case Drain => s.c.at == Draining && s.ring.slots[s.ring.consume] != [] && s.c.limit > 0
    case LeaveSlot => s.c.at == Draining && (s.ring.slots[s.ring.consume] == [] || s.c.limit == 0)
    case ReadHeld => s.c.at == Left
    case ReadAborted => s.c.at == Finish
    case ReadComplete => s.c.at == FinishComplete
    case CompareIndices => s.c.at == FinishEmpty
    case MarkSent => s.c.at == Sent
    case ReadFull => s.c.at == CTail
    case WakeProducer => s.c.at == Notify
    case Abort => true
    case ForgetProducer => true
    case ForgetConsumer => true
  }

  /** The slot the producer writes gets more buffers. */
  function Stage(s: State, list: seq<Buffer>, at: ProducerAt): State {
    s.(ring := s.ring.(slots := s.ring.slots[s.ring.produce := s.ring.slots[s.ring.produce] + list]),
       p := s.p.(at := at),
       h := s.h.(produced := s.h.produced + list))
  }

  /** What the producer does in one step. */
  function ProducerStep(s: State, a: Action): State
    requires Enabled(s, a)
  {
    match a
    case Poll => s.(p := s.p.(at := PBegin(false), stalled := false, moved := false, woken := false))
    case Put(list) => Stage(s, list, Publish(false, false))
    case Complete => s.(flags := s.flags.(complete := true))
    case ReceivePass => s.(p := s.p.(at := PBegin(true), stalled := false, moved := false, woken := false))
    case Look =>
      s.(p := s.p.(at := if s.p.at.pass then PLoop else if Full(s.ring) then PIdle else Ready,
                   stalled := Full(s.ring)))
    case ProducerLoop =>
      s.(p := s.p.(at := if s.p.stalled || s.flags.complete then PTail else Filling(SLOT_BUF_LIMIT)))
    case Receive(buf) => Stage(s, [buf], Filling(s.p.at.room - 1))
    case NoMore(ended) =>
      s.(p := s.p.(at := if s.ring.slots[s.ring.produce] != [] then Publish(true, ended)
                         else if ended then Ending else PTail))
    case Advance =>
      s.(ring := s.ring.(produce := After(s.ring.produce)),
         p := s.p.(at := if s.p.at.link then Recheck(s.p.at.ended) else PTail, moved := true))
    case LookAgain =>
      s.(p := s.p.(at := if s.p.at.ended then Ending else PLoop, stalled := s.p.stalled || Full(s.ring)))
    case MarkComplete => s.(p := s.p.(at := PTail), flags := s.flags.(complete := true))
    case WakeConsumer =>
      s.(p := s.p.(at := PIdle, moved := false),
         c := s.c.(woken := s.c.woken || (s.p.moved && s.c.listens)))
    case _ => s
  }

  /** The loop of a send pass is held when the session has no capacity left, unless the
      content is aborted; a take pass when its count is reached. */
  predicate Held(aborted: bool, sending: bool, limit: nat) {
    limit == 0 && (sending ==> !aborted)
  }

  /** The limit left after one more buffer. */
  function Less(aborted: bool, sending: bool, limit: nat, buf: Buffer): nat
    requires limit > 0
  {
    if !sending then limit - 1
    else if aborted then limit
    else if |buf| >= limit then 0 else limit - |buf|
  }

  function BeginPass(s: State, limit: nat): State {
    s.(c := s.c.(at := Test, limit := limit, held := Held(s.flags.aborted, s.c.sending, limit),
                 sawEmpty := false, moved := false, woken := false))
  }

  /** The head buffer leaves the slot; a send pass of an unaborted content sends it. */
  function DrainOne(s: State): State
    requires Enabled(s, Drain)
  {
    var slot := s.ring.slots[s.ring.consume];
    s.(ring := s.ring.(slots := s.ring.slots[s.ring.consume := slot[1..]]),
       c := s.c.(limit := Less(s.flags.aborted, s.c.sending, s.c.limit, slot[0])),
       h := s.h.(consumed := s.h.consumed + [slot[0]],
                 delivered := if s.c.sending && s.flags.aborted then s.h.delivered else s.h.delivered + [slot[0]]))
  }

  /** What the consumer does in one step. */
  function ConsumerStep(s: State, a: Action): State
    requires Enabled(s, a)
  {
    match a
    case SendPass(capacity) => BeginPass(s, capacity)
    case TakePass(count) => BeginPass(s, count)
    case ConsumerLoop =>
      s.(c := if s.c.held then s.c.(at := Finish)
              else if FullSlots(s.ring) == 0 then s.c.(at := Finish, sawEmpty := true)
              else s.c.(at := Draining))
    case Drain => DrainOne(s)
    case LeaveSlot =>
      if s.ring.slots[s.ring.consume] == [] then
        s.(ring := s.ring.(consume := After(s.ring.consume)), c := s.c.(at := Left, moved := true))
      else
        s.(c := s.c.(at := Left))
    case ReadHeld => s.(c := s.c.(at := Test, held := Held(s.flags.aborted, s.c.sending, s.c.limit)))
    case ReadAborted =>
      s.(c := s.c.(at := if !s.c.sending then CTail else if s.flags.aborted then FinishEmpty else FinishComplete))
    case ReadComplete => s.(c := s.c.(at := if s.flags.complete then FinishEmpty else CTail))
    case CompareIndices => s.(c := s.c.(at := if s.ring.consume == s.ring.produce then Sent else CTail))
    case MarkSent => s.(c := s.c.(at := CTail, moved := false), flags := s.flags.(sendComplete := true))
    case ReadFull =>
      s.(c := if s.c.moved && FullSlots(s.ring) < RESUME_THRESHOLD then s.c.(at := Notify)
              else s.c.(at := CIdle, moved := false))
    case WakeProducer =>
      s.(c := s.c.(at := CIdle, moved := false), p := s.p.(woken := s.p.woken || s.p.listens))
    case _ => s
  }

  predicate OfProducer(a: Action) {
    a.Poll? || a.Put? || a.Complete? || a.ReceivePass? || a.Look? || a.ProducerLoop? || a.Receive? ||
    a.NoMore? || a.Advance? || a.LookAgain? || a.MarkComplete? || a.WakeConsumer?
  }

  function Step(s: State, a: Action): State
    requires Enabled(s, a)
  {
    if a.Abort? then s.(flags := s.flags.(aborted := true))
    else if a.ForgetProducer? then s.(p := s.p.(listens := false))
    else if a.ForgetConsumer? then s.(c := s.c.(listens := false))
    else if OfProducer(a) then ProducerStep(s, a)
    else ConsumerStep(s, a)
  }

  /** A run: any interleaving of enabled steps from a fresh ring. */
  ghost predicate Run(states: seq<State>, actions: seq<Action>) {
    && |states| == |actions| + 1
    && Initial(states[0])
    && forall i :: 0 <= i < |actions| ==> Enabled(states[i], actions[i]) && states[i + 1] == Step(states[i], actions[i])
  }

  // ---------------------------------------------------------------- ring order

  /** The producer has put buffers in a slot it has not published. */
  predicate Staging(p: Producer) {
    p.at.Filling? || p.at.Publish?
  }

  /** The producer knows there is room, though the consumer may have made more since. */
  predicate HasRoom(p: Producer) {
    p.at == Ready || Staging(p) || (p.at == PLoop && !p.stalled)
  }

  ghost predicate EmptyOutside(slots: Slots, c: Index, n: Index) {
    forall i: Index :: n < Distance(i, c) ==> slots[i] == []
  }

  /** Consumed buffers, then those in the ring, then those being staged, are those produced. */
  ghost predicate InOrder(slots: Slots, c: Index, p: Index, consumed: seq<Buffer>, produced: seq<Buffer>) {
    && EmptyOutside(slots, c, Distance(p, c))
    && produced == consumed + RingFrom(slots, c, Distance(p, c) + 1)
  }

  ghost predicate Ordered(s: State) {
    && InOrder(s.ring.slots, s.ring.consume, s.ring.produce, s.h.consumed, s.h.produced)
    && (!Staging(s.p) ==> s.ring.slots[s.ring.produce] == [])
    && (HasRoom(s.p) ==> FullSlots(s.ring) < SLOT_COUNT - 1)
    && (s.c.at == Draining ==> FullSlots(s.ring) > 0)
  }

  lemma {:induction false} RingExtends(slots: Slots, c: Index, p: Index, n: nat)
    requires n == Distance(p, c)
    ensures RingFrom(slots, c, n + 1) == RingFrom(slots, c, n) + slots[p]
    decreases n
  {
    hide Distance, After;
    var d := After(c);
    assert RingFrom(slots, c, n + 1) == slots[c] + RingFrom(slots, d, n);
    if n == 0 {
      assert slots[c] + [] == [] + slots[c];
    } else {
      RingExtends(slots, d, p, n - 1);
      assert slots[c] + (RingFrom(slots, d, n - 1) + slots[p]) == (slots[c] + RingFrom(slots, d, n - 1)) + slots[p];
    }
  }

  lemma {:induction false} RingUntouched(slots: Slots, c: Index, n: nat, i: Index, list: seq<Buffer>)
    requires n <= Distance(i, c)
    ensures RingFrom(slots[i := list], c, n) == RingFrom(slots, c, n)
    decreases n
  {
    if n > 0 {
      RingUntouched(slots, After(c), n - 1, i, list);
    }
  }

  /** Writing the slot behind the last full one changes only the end. */
  lemma RingTailWritten(slots: Slots, c: Index, p: Index, list: seq<Buffer>)
    ensures RingFrom(slots[p := list], c, Distance(p, c) + 1) == RingFrom(slots, c, Distance(p, c)) + list
    ensures RingFrom(slots, c, Distance(p, c) + 1) == RingFrom(slots, c, Distance(p, c)) + slots[p]
  {
    hide RingFrom, After;
    var n := Distance(p, c);
    RingUntouched(slots, c, n, p, list);
    RingExtends(slots[p := list], c, p, n);
    RingExtends(slots, c, p, n);
  }

  lemma RingHeadDrained(slots: Slots, c: Index, n: nat, list: seq<Buffer>)
    requires 0 < n <= SLOT_COUNT
    ensures RingFrom(slots[c := list], c, n) == list + RingFrom(slots, After(c), n - 1)
  {
    RingUntouched(slots, After(c), n - 1, c, list);
  }

  lemma StagedInOrder(slots: Slots, c: Index, p: Index, consumed: seq<Buffer>, produced: seq<Buffer>, list: seq<Buffer>)
    requires InOrder(slots, c, p, consumed, produced)
    ensures InOrder(slots[p := slots[p] + list], c, p, consumed, produced + list)
  {
    RingTailWritten(slots, c, p, slots[p] + list);
  }

  lemma PublishedInOrder(slots: Slots, c: Index, p: Index, consumed: seq<Buffer>, produced: seq<Buffer>)
    requires InOrder(slots, c, p, consumed, produced)
    requires Distance(p, c) < SLOT_COUNT - 1
    ensures InOrder(slots, c, After(p), consumed, produced)
    ensures slots[After(p)] == [] && Distance(After(p), c) == Distance(p, c) + 1
  {
    hide RingFrom, Distance, After;
    var q := After(p);
    assert Distance(q, c) == Distance(p, c) + 1;
    assert slots[q] == [];
    RingTailWritten(slots, c, q, []);
    assert RingFrom(slots, c, Distance(q, c)) + [] == RingFrom(slots, c, Distance(q, c));
  }

  lemma DrainedInOrder(slots: Slots, c: Index, p: Index, consumed: seq<Buffer>, produced: seq<Buffer>)
    requires InOrder(slots, c, p, consumed, produced) && slots[c] != []
    ensures InOrder(slots[c := slots[c][1..]], c, p, consumed + [slots[c][0]], produced)
  {
    hide EmptyOutside, Distance, After;
    var n: nat := Distance(p, c);
    var rest := RingFrom(slots, After(c), n);
    RingHeadDrained(slots, c, n + 1, slots[c][1..]);
    assert RingFrom(slots, c, n + 1) == slots[c] + rest;
    HeadMoves(consumed, slots[c], rest);
    assert EmptyOutside(slots[c := slots[c][1..]], c, n) by { DrainedOutside(slots, c, n); }
  }

  lemma HeadMoves(consumed: seq<Buffer>, slot: seq<Buffer>, rest: seq<Buffer>)
    requires slot != []
    ensures consumed + (slot + rest) == consumed + [slot[0]] + (slot[1..] + rest)
  {
    assert slot == [slot[0]] + slot[1..];
  }

  lemma DrainedOutside(slots: Slots, c: Index, n: Index)
    requires EmptyOutside(slots, c, n) && slots[c] != []
    ensures EmptyOutside(slots[c := slots[c][1..]], c, n)
  {
    assert Distance(c, c) == 0;
  }

  lemma LeftOutside(slots: Slots, c: Index, n: Index)
    requires EmptyOutside(slots, c, n) && slots[c] == [] && n > 0
    ensures EmptyOutside(slots, After(c), n - 1)
  {
    forall i: Index | n - 1 < Distance(i, After(c)) ensures slots[i] == [] {
      assert i == c || n < Distance(i, c);
    }
  }

  lemma RingSkips(slots: Slots, c: Index, n: nat)
    requires slots[c] == []
    ensures RingFrom(slots, c, n + 1) == RingFrom(slots, After(c), n)
  {
    assert [] + RingFrom(slots, After(c), n) == RingFrom(slots, After(c), n);
  }

  lemma LeftInOrder(slots: Slots, c: Index, p: Index, consumed: seq<Buffer>, produced: seq<Buffer>)
    requires InOrder(slots, c, p, consumed, produced) && slots[c] == [] && Distance(p, c) > 0
    ensures InOrder(slots, After(c), p, consumed, produced)
    ensures Distance(p, After(c)) == Distance(p, c) - 1
  {
    hide EmptyOutside, Distance, After, RingFrom;
    LeftOutside(slots, c, Distance(p, c));
    RingSkips(slots, c, Distance(p, c));
  }

  /** Every step keeps the ring in order. */
  lemma ProducerKeepsOrder(s: State, a: Action)
    requires Ordered(s) && Enabled(s, a) && OfProducer(a)
    ensures Ordered(Step(s, a))
    ensures FullSlots(Step(s, a).ring) == FullSlots(s.ring) + if a.Advance? then 1 else 0
  {
    hide RingFrom, EmptyOutside, InOrder, Distance, After;
    var r := s.ring;
    if a.Put? {
      StagedInOrder(r.slots, r.consume, r.produce, s.h.consumed, s.h.produced, a.list);
    } else if a.Receive? {
      StagedInOrder(r.slots, r.consume, r.produce, s.h.consumed, s.h.produced, [a.buf]);
    } else if a.Advance? {
      PublishedInOrder(r.slots, r.consume, r.produce, s.h.consumed, s.h.produced);
    }
  }

  lemma ConsumerKeepsOrder(s: State, a: Action)
    requires Ordered(s) && Enabled(s, a) && !OfProducer(a)
    ensures Ordered(Step(s, a))
    ensures FullSlots(Step(s, a).ring) ==
            FullSlots(s.ring) - if a.LeaveSlot? && s.ring.slots[s.ring.consume] == [] then 1 else 0
  {
    hide RingFrom, EmptyOutside, InOrder, Distance, After;
    var r := s.ring;
    if a.Drain? {
      DrainedInOrder(r.slots, r.consume, r.produce, s.h.consumed, s.h.produced);
      OtherSlot(r);
    } else if a.LeaveSlot? && r.slots[r.consume] == [] {
      LeftInOrder(r.slots, r.consume, r.produce, s.h.consumed, s.h.produced);
    }
  }

  /** The slot being drained is not the one being filled. */
  lemma OtherSlot(r: Ring)
    requires FullSlots(r) > 0
    ensures r.consume != r.produce
  {
  }

  // ---------------------------------------------------------------- wake-ups

  /** A producer that found the ring full is woken, or about to be, once enough slots are free. */
  predicate ProducerNotLost(s: State) {
    s.p.stalled && FullSlots(s.ring) < RESUME_THRESHOLD && s.p.listens ==>
      s.p.woken || s.flags.sendComplete || (s.c.at != CIdle && s.c.moved)
  }

  /** A consumer that found the ring empty is woken, or about to be, once a slot is full. */
  predicate ConsumerNotLost(s: State) {
    s.c.sawEmpty && FullSlots(s.ring) > 0 && s.c.listens ==>
      s.c.woken || (s.p.at != PIdle && s.p.moved)
  }

  predicate WakesOk(s: State) {
    && ProducerNotLost(s)
    && ConsumerNotLost(s)
    && (s.c.at == CIdle ==> !s.c.moved)
    && (s.p.at == PIdle || s.p.at.PBegin? ==> !s.p.moved)
    && (s.p.stalled ==> s.p.at == PIdle || s.p.at == PLoop || s.p.at == Ending || s.p.at == PTail)
    && (s.c.sawEmpty ==> !(s.c.at == Test || s.c.at == Draining || s.c.at == Left))
  }

  lemma FullMeans(r: Ring)
    ensures Full(r) <==> FullSlots(r) == SLOT_COUNT - 1
  {
  }

  lemma ProducerKeepsWakes(s: State, a: Action)
    requires Ordered(s) && WakesOk(s) && Enabled(s, a) && OfProducer(a)
    ensures WakesOk(Step(s, a))
  {
    ProducerKeepsOrder(s, a);
    FullMeans(s.ring);
    hide RingFrom, EmptyOutside, InOrder, Distance, After, Full, FullSlots, Ordered;
  }

  lemma ConsumerKeepsWakes(s: State, a: Action)
    requires Ordered(s) && WakesOk(s) && Enabled(s, a) && !OfProducer(a)
    ensures WakesOk(Step(s, a))
  {
    ConsumerKeepsOrder(s, a);
    hide RingFrom, EmptyOutside, InOrder, Distance, After, Full, FullSlots, Ordered;
  }

  // ---------------------------------------------------------------- completion

  /** Nothing is produced once the stream is complete. */
  predicate ProducerDone(p: Producer) {
    p.at == PIdle || p.at == PBegin(true) || p.at == PLoop || p.at == PTail
  }

  ghost predicate CompletionOk(s: State) {
    && s.h.delivered <= s.h.consumed
    && (!s.flags.aborted || !s.c.sending ==> s.h.delivered == s.h.consumed)
    && (s.flags.complete ==> ProducerDone(s.p))
    && (s.c.at == FinishEmpty && !s.flags.aborted ==> s.flags.complete)
    && (s.c.at == Sent && !s.flags.aborted ==> s.flags.complete && s.h.consumed == s.h.produced)
    && (s.flags.sendComplete && !s.flags.aborted ==> s.flags.complete && s.h.consumed == s.h.produced)
  }

  lemma EmptyRingIsConsumed(s: State)
    requires Ordered(s) && s.ring.consume == s.ring.produce && !Staging(s.p)
    ensures s.h.consumed == s.h.produced
  {
    assert RingFrom(s.ring.slots, After(s.ring.consume), 0) == [];
    assert RingFrom(s.ring.slots, s.ring.consume, 1) == s.ring.slots[s.ring.consume] + [];
  }

  lemma ConsumedLeavesNothing(s: State)
    requires Ordered(s) && s.h.consumed == s.h.produced
    ensures s.ring.slots[s.ring.consume] == []
  {
    assert |RingFrom(s.ring.slots, s.ring.consume, FullSlots(s.ring) + 1)| == 0;
  }

  lemma StepKeepsCompletion(s: State, a: Action)
    requires Ordered(s) && CompletionOk(s) && Enabled(s, a)
    ensures CompletionOk(Step(s, a))
  {
    hide RingFrom, EmptyOutside, InOrder, Distance, After, Full;
    if a.CompareIndices? && s.ring.consume == s.ring.produce && !s.flags.aborted {
      EmptyRingIsConsumed(s);
    } else if a.Drain? && s.h.consumed == s.h.produced {
      ConsumedLeavesNothing(s);
    }
  }

  // ---------------------------------------------------------------- whole runs

  ghost predicate Inv(s: State) {
    Ordered(s) && WakesOk(s) && CompletionOk(s)
  }

  lemma StartsInOrder(s: State)
    requires Initial(s)
    ensures Inv(s)
  {
    assert RingFrom(s.ring.slots, 1, 0) == [];
    assert RingFrom(s.ring.slots, 0, 1) == [] + [];
  }

  lemma StepKeepsInv(s: State, a: Action)
    requires Inv(s) && Enabled(s, a)
    ensures Inv(Step(s, a))
  {
    hide Ordered, WakesOk, CompletionOk, Step, Enabled;
    if OfProducer(a) {
      ProducerKeepsOrder(s, a);
      ProducerKeepsWakes(s, a);
    } else {
      ConsumerKeepsOrder(s, a);
      ConsumerKeepsWakes(s, a);
    }
    StepKeepsCompletion(s, a);
  }

  lemma {:induction false} RunKeepsInv(states: seq<State>, actions: seq<Action>, i: nat)
    requires Run(states, actions) && i < |states|
    ensures Inv(states[i])
    decreases i
  {
    hide Inv, Step, Enabled, Initial;
    if i == 0 {
      StartsInOrder(states[0]);
    } else {
      RunKeepsInv(states, actions, i - 1);
      StepKeepsInv(states[i - 1], actions[i - 1]);
    }
  }

  /** In every state of every run: consumed buffers followed by those in the ring are the
      produced ones in order, the slots outside the full stretch are empty, and the
      slot being written is neither full nor being drained. */
  lemma RingIsAQueue(states: seq<State>, actions: seq<Action>, i: nat)
    requires Run(states, actions) && i < |states|
    ensures var s := states[i]; var r := s.ring;
      && s.h.produced == s.h.consumed + RingFrom(r.slots, r.consume, FullSlots(r)) + r.slots[r.produce]
      && (!Staging(s.p) ==> r.slots[r.produce] == [])
      && (forall k: Index :: FullSlots(r) < Distance(k, r.consume) ==> r.slots[k] == [])
      && (Staging(s.p) && s.c.at == Draining ==> r.produce != r.consume)
  {
    RunKeepsInv(states, actions, i);
    var r := states[i].ring;
    RingTailWritten(r.slots, r.consume, r.produce, []);
  }

  /** In every state of every run a stopped side is not forgotten. A producer that stopped on a
      full ring, of which few slots are still full, and a consumer that stopped on an empty
      ring, which is not empty any more, have a wake-up pending or a pass of the other
      side under way that has yet to reach its wake-up. */
  lemma NoLostWakeups(states: seq<State>, actions: seq<Action>, i: nat)
    requires Run(states, actions) && i < |states|
    ensures ProducerNotLost(states[i]) && ConsumerNotLost(states[i])
  {
    RunKeepsInv(states, actions, i);
  }

  /** When both sides rest, nothing but the pending wake-up can be relied on. */
  lemma RestingSidesAreWoken(states: seq<State>, actions: seq<Action>, i: nat)
    requires Run(states, actions) && i < |states|
    requires states[i].p.at == PIdle && states[i].c.at == CIdle
    requires states[i].p.listens && states[i].c.listens && !states[i].flags.sendComplete
    ensures states[i].p.stalled && FullSlots(states[i].ring) < RESUME_THRESHOLD ==> states[i].p.woken
    ensures states[i].c.sawEmpty && FullSlots(states[i].ring) > 0 ==> states[i].c.woken
    ensures states[i].p.stalled && states[i].c.sawEmpty ==> states[i].p.woken || states[i].c.woken
  {
    RunKeepsInv(states, actions, i);
  }

  lemma StepAfterComplete(s: State, a: Action)
    requires CompletionOk(s) && Enabled(s, a) && s.flags.sendComplete
    ensures Step(s, a).flags.sendComplete
    ensures !Step(s, a).flags.aborted ==> !s.flags.aborted && Step(s, a).h.produced == s.h.produced
  {
    hide Distance, After, Full, FullSlots;
  }

  /** A send that completes without an abort has delivered the whole stream, and nothing
      is added to the stream after that. */
  lemma {:induction false} CompleteSendDeliversAll(states: seq<State>, actions: seq<Action>, i: nat, j: nat)
    requires Run(states, actions) && i <= j < |states|
    requires states[i].flags.sendComplete && !states[j].flags.aborted
    ensures !states[i].flags.aborted
    ensures states[i].h.delivered == states[i].h.produced == states[j].h.produced
    decreases j - i
  {
    hide Step, Enabled, Initial, Ordered, WakesOk;
    RunKeepsInv(states, actions, i);
    if i < j {
      StepAfterComplete(states[i], actions[i]);
      CompleteSendDeliversAll(states, actions, i + 1, j);
    }
  }

  /** What the receiver has got is always the front of what was produced. */
  lemma DeliveredIsAPrefix(states: seq<State>, actions: seq<Action>, i: nat)
    requires Run(states, actions) && i < |states|
    ensures states[i].h.delivered <= states[i].h.produced
    ensures !states[i].flags.aborted ==> states[i].h.delivered == states[i].h.consumed
  {
    RunKeepsInv(states, actions, i);
  }

  // ---------------------------------------------------------------- one side at a time

  ghost predicate Leads(s: State, states: seq<State>, actions: seq<Action>, t: State) {
    && |states| == |actions| + 1 && states[0] == s && states[|actions|] == t
    && forall i :: 0 <= i < |actions| ==> Enabled(states[i], actions[i]) && states[i + 1] == Step(states[i], actions[i])
  }

  lemma LeadsStart(s: State)
    ensures Leads(s, [s], [], s)
  {
  }

  lemma LeadsOn(s: State, states: seq<State>, actions: seq<Action>, t: State, a: Action)
    requires Leads(s, states, actions, t) && Enabled(t, a)
    ensures Leads(s, states + [Step(t, a)], actions + [a], Step(t, a))
  {
    hide Step, Enabled;
  }

  /** The steps by which an adaptor puts a list into a ring with room. */
  lemma PutSteps(s: State, list: seq<Buffer>) returns (states: seq<State>, actions: seq<Action>, t: State)
    requires s.p.at == Ready && s.ring.slots[s.ring.produce] == []
    ensures Leads(s, states, actions, t)
    ensures t.ring == Ring(s.ring.slots[s.ring.produce := list], After(s.ring.produce), s.ring.consume)
    ensures t.p.at == PIdle && t.h == s.h.(produced := s.h.produced + list) && t.flags == s.flags
    ensures t.c == s.c.(woken := s.c.woken || s.c.listens)
  {
    hide Leads, After;
    LeadsStart(s);
    var a := Put(list);
    LeadsOn(s, [s], [], s, a);
    t := Step(s, a);
    assert [] + list == list;
    states, actions := [s] + [t], [] + [a];
    LeadsOn(s, states, actions, t, Advance);
    t := Step(t, Advance);
    states, actions := states + [t], actions + [Advance];
    LeadsOn(s, states, actions, t, WakeConsumer);
    t := Step(t, WakeConsumer);
    states, actions := states + [t], actions + [WakeConsumer];
  }

  /** What a pass delivers of what it takes. */
  function Delivers(s: State, taken: seq<Buffer>): seq<Buffer> {
    if s.c.sending && s.flags.aborted then [] else taken
  }

  /** Where a pass stands: what it has taken, how much more it may, and the ring it has left. */
  ghost predicate Taking(s: State, u: State, slots: seq<seq<Buffer>>, produce: Index, consume: Index,
                         taken: seq<Buffer>, left: nat, moved: bool) {
    && |slots| == SLOT_COUNT && u.ring == Ring(slots, produce, consume)
    && u.c.sending == s.c.sending && u.c.limit == left && u.c.moved == moved
    && u.h == s.h.(consumed := s.h.consumed + taken, delivered := s.h.delivered + Delivers(s, taken))
    && u.flags == s.flags && u.p == s.p && u.c.listens == s.c.listens
  }

  function PassOf(s: State, limit: nat): Action {
    if s.c.sending then SendPass(limit) else TakePass(limit)
  }

  lemma LessByOne(aborted: bool, left: nat, buf: Buffer)
    requires left > 0
    ensures Less(aborted, false, left, buf) == left - 1
  {
  }

  lemma TakeStarts(s: State, limit: nat)
    requires s.c.at == CIdle
    ensures Enabled(s, PassOf(s, limit))
    ensures var u := Step(s, PassOf(s, limit));
      u.c.at == Test && u.c.held == Held(s.flags.aborted, s.c.sending, limit) &&
      Taking(s, u, s.ring.slots, s.ring.produce, s.ring.consume, [], limit, false)
  {
    assert s.h.consumed + [] == s.h.consumed && s.h.delivered + [] == s.h.delivered;
  }

  lemma TakeLoops(s: State, u: State, slots: seq<seq<Buffer>>, produce: Index, consume: Index,
                  taken: seq<Buffer>, left: nat, moved: bool)
    requires Taking(s, u, slots, produce, consume, taken, left, moved) && u.c.at == Test
    ensures Enabled(u, ConsumerLoop)
    ensures var t := Step(u, ConsumerLoop);
      && Taking(s, t, slots, produce, consume, taken, left, moved)
      && t.c.at == if u.c.held || produce == consume then Finish else Draining
  {
  }

  lemma TakeDrains(s: State, u: State, slots: seq<seq<Buffer>>, produce: Index, consume: Index,
                   taken: seq<Buffer>, left: nat, moved: bool)
    requires Taking(s, u, slots, produce, consume, taken, left, moved) && u.c.at == Draining
    requires slots[consume] != [] && left > 0
    ensures Enabled(u, Drain)
    ensures var t := Step(u, Drain); var buf := slots[consume][0];
      && t.c.at == Draining
      && Taking(s, t, slots[consume := slots[consume][1..]], produce, consume, taken + [buf],
                Less(s.flags.aborted, s.c.sending, left, buf), moved)
  {
    var x := slots[consume][0];
    assert s.h.consumed + taken + [x] == s.h.consumed + (taken + [x]);
    assert s.h.delivered + taken + [x] == s.h.delivered + (taken + [x]);
  }

  lemma TakeLeaves(s: State, u: State, slots: seq<seq<Buffer>>, produce: Index, consume: Index,
                   taken: seq<Buffer>, left: nat, moved: bool)
    requires Taking(s, u, slots, produce, consume, taken, left, moved) && u.c.at == Draining
    requires slots[consume] == [] || left == 0
    ensures Enabled(u, LeaveSlot) && Enabled(Step(u, LeaveSlot), ReadHeld)
    ensures var t := Step(Step(u, LeaveSlot), ReadHeld); var empty := slots[consume] == [];
      && t.c.at == Test && t.c.held == Held(s.flags.aborted, s.c.sending, left)
      && Taking(s, t, slots, produce, if empty then After(consume) else consume, taken, left, moved || empty)
  {
    hide After;
  }

  lemma TakeIs(s: State, u: State, slots: seq<seq<Buffer>>, produce: Index, consume: Index,
               taken: seq<Buffer>, left: nat, moved: bool)
    requires Taking(s, u, slots, produce, consume, taken, left, moved)
    ensures |slots| == SLOT_COUNT && u.ring == Ring(slots, produce, consume) && u.h.consumed == s.h.consumed + taken
  {
  }

  lemma TakeEnds(s: State, u: State, slots: seq<seq<Buffer>>, produce: Index, consume: Index,
                 taken: seq<Buffer>, left: nat, moved: bool, states: seq<State>, actions: seq<Action>)
    returns (t: State, states': seq<State>, actions': seq<Action>)
    requires Taking(s, u, slots, produce, consume, taken, left, moved) && u.c.at == Finish && !s.c.sending
    requires Leads(s, states, actions, u)
    ensures Leads(s, states', actions', t) && t.c.at == CIdle
    ensures t.ring == u.ring && t.h == u.h && t.flags == s.flags
    ensures t.p == s.p.(woken := s.p.woken || (moved && Distance(produce, consume) < RESUME_THRESHOLD && s.p.listens))
  {
    hide Leads, Distance;
    LeadsOn(s, states, actions, u, ReadAborted);
    t := Step(u, ReadAborted);
    states', actions' := states + [t], actions + [ReadAborted];
    LeadsOn(s, states', actions', t, ReadFull);
    t := Step(t, ReadFull);
    states', actions' := states' + [t], actions' + [ReadFull];
    if t.c.at == Notify {
      LeadsOn(s, states', actions', t, WakeProducer);
      t := Step(t, WakeProducer);
      states', actions' := states' + [t], actions' + [WakeProducer];
    }
  }

  /** The ring of one content, as the adaptor calls see it between the other side's steps. */
  class UnicastRing {
    const slots: array<seq<Buffer>>
    var produce: Index
    var consume: Index

    ghost predicate Valid()
      reads this, slots
    {
      && slots.Length == SLOT_COUNT
      && EmptyOutside(slots[..], consume, Distance(produce, consume))
      && slots[produce] == []
    }

    /** The ring is that of the state. */
    ghost predicate Mirrors(s: State)
      reads this, slots
    {
      slots.Length == SLOT_COUNT && s.ring == Ring(slots[..], produce, consume)
    }

    /** The buffers produced and not yet consumed. */
    ghost function Contents(): seq<Buffer>
      reads this, slots
      requires Valid()
    {
      RingFrom(slots[..], consume, Distance(produce, consume))
    }

    constructor ()
      ensures Valid() && Contents() == [] && fresh(slots) && slots[..] == [[], [], [], [], [], [], [], []]
      ensures produce == 0 == consume
    {
      slots := new seq<Buffer>[SLOT_COUNT](_ => []);
      produce := 0;
      consume := 0;
    }

    predicate CanProduce()
      reads this
    {
      Distance(consume, produce) != 1
    }

    /** Puts a list of buffers behind the others and activates the consumer: the steps of an adaptor that has found
        room. */
    method ProduceBuffers(list: seq<Buffer>, ghost s: State)
      returns (ghost t: State, ghost states: seq<State>, ghost actions: seq<Action>)
      requires Valid() && CanProduce() && Mirrors(s) && s.p.at == Ready
      modifies this`produce, slots
      ensures Valid() && Contents() == old(Contents()) + list
      ensures Mirrors(t) && Leads(s, states, actions, t) && t.h.produced == s.h.produced + list
      ensures t.p.at == PIdle && t.c == s.c.(woken := s.c.woken || s.c.listens) && t.flags == s.flags
      ensures t.h.delivered == s.h.delivered
    {
      hide RingFrom, Distance, After, Leads;
      ghost var before := slots[..];
      slots[produce] := list;
      assert slots[..] == before[produce := list];
      RingTailWritten(before, consume, produce, list);
      assert slots[After(produce)] == before[After(produce)];
      states, actions, t := PutSteps(s, list);
      produce := After(produce);
    }

    /** Moves buffers from the slot at `consume` until it is empty or `limit` are taken. */
    method DrainSlot(taken: seq<Buffer>, limit: nat, ghost total: seq<Buffer>, ghost s: State, ghost u: State,
                     ghost moved: bool, ghost states: seq<State>, ghost actions: seq<Action>)
      returns (buffers: seq<Buffer>, ghost t: State, ghost states': seq<State>, ghost actions': seq<Action>)
      requires slots.Length == SLOT_COUNT && consume != produce && |taken| <= limit
      requires slots[produce] == []
      requires InOrder(slots[..], consume, produce, taken, total)
      requires Leads(s, states, actions, u) && u.c.at == Draining && !s.c.sending
      requires Taking(s, u, slots[..], produce, consume, taken, limit - |taken|, moved)
      modifies slots
      ensures InOrder(slots[..], consume, produce, buffers, total)
      ensures slots[produce] == [] && |taken| <= |buffers| <= limit
      ensures slots[consume] == [] || |buffers| == limit
      ensures Leads(s, states', actions', t) && t.c.at == Draining
      ensures Taking(s, t, slots[..], produce, consume, buffers, limit - |buffers|, moved)
    {
      hide *;
      buffers, t, states', actions' := taken, u, states, actions;
      while |buffers| < limit && slots[consume] != []
        invariant InOrder(slots[..], consume, produce, buffers, total)
        invariant slots[produce] == [] && |taken| <= |buffers| <= limit
        invariant Leads(s, states', actions', t) && t.c.at == Draining
        invariant Taking(s, t, slots[..], produce, consume, buffers, limit - |buffers|, moved)
        decreases limit - |buffers|
      {
        DrainedInOrder(slots[..], consume, produce, buffers, total);
        ghost var before := slots[..];
        TakeDrains(s, t, before, produce, consume, buffers, limit - |buffers|, moved);
        LessByOne(s.flags.aborted, limit - |buffers|, before[consume][0]);
        LeadsOn(s, states', actions', t, Drain);
        t := Step(t, Drain);
        states', actions' := states' + [t], actions' + [Drain];
        buffers := buffers + [slots[consume][0]];
        slots[consume] := slots[consume][1..];
        assert slots[..] == before[consume := before[consume][1..]];
      }
    }

    /** Takes up to `limit` buffers, oldest first. The producer is woken when a slot was emptied and few slots are
        full. These are the steps of an adaptor's pass. */
    method ConsumeBuffers(limit: nat, ghost s: State)
      returns (buffers: seq<Buffer>, wake: bool, ghost t: State, ghost states: seq<State>, ghost actions: seq<Action>)
      requires Valid() && Mirrors(s) && s.c.at == CIdle && !s.c.sending
      modifies this`consume, slots
      ensures Valid()
      ensures buffers + Contents() == old(Contents())
      ensures |buffers| == if limit < |old(Contents())| then limit else |old(Contents())|
      ensures wake <==> consume != old(consume) && Distance(produce, consume) < RESUME_THRESHOLD
      ensures Mirrors(t) && Leads(s, states, actions, t) && t.c.at == CIdle
      ensures t.h.consumed == s.h.consumed + buffers && t.p == s.p.(woken := s.p.woken || (wake && s.p.listens))
    {
      hide RingFrom, EmptyOutside, InOrder, Distance, After, Leads, Step, Enabled, Taking;
      ghost var total := Contents();
      ghost var u := s;
      buffers := [];
      var moved := false;
      var empty := consume == produce;
      WholeInOrder([], total);
      LeadsStart(s);
      TakeStarts(s, limit);
      LeadsOn(s, [s], [], s, TakePass(limit));
      u := Step(s, TakePass(limit));
      states, actions := [s] + [u], [] + [TakePass(limit)];
      while |buffers| < limit && !empty
        invariant slots.Length == SLOT_COUNT && slots[produce] == [] && |buffers| <= limit
        invariant InOrder(slots[..], consume, produce, buffers, total)
        invariant empty <==> consume == produce
        invariant Distance(produce, consume) <= old(Distance(produce, consume))
        invariant moved <==> Distance(produce, consume) < old(Distance(produce, consume))
        invariant |buffers| == limit || moved || buffers == []
        invariant Leads(s, states, actions, u) && u.c.at == Test && u.c.held == (|buffers| == limit)
        invariant Taking(s, u, slots[..], produce, consume, buffers, limit - |buffers|, moved)
        decreases Distance(produce, consume), limit - |buffers|
      {
        TakeLoops(s, u, slots[..], produce, consume, buffers, limit - |buffers|, moved);
        LeadsOn(s, states, actions, u, ConsumerLoop);
        u := Step(u, ConsumerLoop);
        states, actions := states + [u], actions + [ConsumerLoop];
        buffers, u, states, actions := DrainSlot(buffers, limit, total, s, u, moved, states, actions);
        TakeLeaves(s, u, slots[..], produce, consume, buffers, limit - |buffers|, moved);
        LeadsOn(s, states, actions, u, LeaveSlot);
        u := Step(u, LeaveSlot);
        states, actions := states + [u], actions + [LeaveSlot];
        LeadsOn(s, states, actions, u, ReadHeld);
        u := Step(u, ReadHeld);
        states, actions := states + [u], actions + [ReadHeld];
        if slots[consume] == [] {
          LeftInOrder(slots[..], consume, produce, buffers, total);
          moved := true;
          consume := After(consume);
        }
        empty := consume == produce;
      }
      WholeInOrder(buffers, total);
      wake := moved && Distance(produce, consume) < RESUME_THRESHOLD;
      TakeLoops(s, u, slots[..], produce, consume, buffers, limit - |buffers|, moved);
      LeadsOn(s, states, actions, u, ConsumerLoop);
      u := Step(u, ConsumerLoop);
      states, actions := states + [u], actions + [ConsumerLoop];
      TakeIs(s, u, slots[..], produce, consume, buffers, limit - |buffers|, moved);
      t, states, actions := TakeEnds(s, u, slots[..], produce, consume, buffers, limit - |buffers|, moved, states, actions);
    }

    /** With nothing staged, the ring holds exactly what is left of `total`. */
    lemma WholeInOrder(taken: seq<Buffer>, total: seq<Buffer>)
      requires slots.Length == SLOT_COUNT && slots[produce] == []
      ensures InOrder(slots[..], consume, produce, taken, total) <==>
              Valid() && total == taken + Contents()
      ensures InOrder(slots[..], consume, produce, taken, total) && consume == produce ==> total == taken
    {
      hide Distance, After;
      RingTailWritten(slots[..], consume, produce, []);
      assert RingFrom(slots[..], consume, Distance(produce, consume)) + [] ==
             RingFrom(slots[..], consume, Distance(produce, consume));
    }
  }
}
