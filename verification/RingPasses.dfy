/** Whole passes of either side over the cut-through ring, with no step of the other side in between: what a pass
    sends and receives, when it says that all is sent or received, and whom it wakes. */
module RingPasses {
  import opened CutThrough
  import Buffers

  /** Some steps lead from one state to the other. */
  ghost predicate Comes(s: State, t: State) {
    exists states, actions :: Leads(s, states, actions, t)
  }

  lemma ComesStart(s: State)
    ensures Comes(s, s)
  {
    LeadsStart(s);
  }

  lemma LeadsComes(s: State, states: seq<State>, actions: seq<Action>, t: State)
    requires Leads(s, states, actions, t)
    ensures Comes(s, t)
  {
  }

  lemma ComesOn(s: State, t: State, a: Action)
    requires Comes(s, t) && Enabled(t, a)
    ensures Comes(s, Step(t, a))
  {
    hide Step, Enabled, Leads;
    var states, actions :| Leads(s, states, actions, t);
    LeadsOn(s, states, actions, t, a);
  }

  // ---------------------------------------------------------------- sending

  function OctetsOf(list: seq<Buffer>): nat {
    if list == [] then 0 else OctetsOf(list[..|list| - 1]) + |list[|list| - 1]|
  }

  /** What is left of the session's capacity; an aborted content uses none. */
  function LeftAfter(aborted: bool, capacity: nat, list: seq<Buffer>): nat {
    if aborted then capacity else if OctetsOf(list) >= capacity then 0 else capacity - OctetsOf(list)
  }

  lemma LeftGoesOn(aborted: bool, capacity: nat, list: seq<Buffer>, buf: Buffer)
    requires LeftAfter(aborted, capacity, list) > 0
    ensures LeftAfter(aborted, capacity, list + [buf]) == Less(aborted, true, LeftAfter(aborted, capacity, list), buf)
  {
    assert (list + [buf])[..|list|] == list;
  }

  /** Each of the buffers was taken while there was capacity. */
  ghost predicate WithinCapacity(aborted: bool, capacity: nat, list: seq<Buffer>) {
    forall n :: 0 <= n < |list| ==> LeftAfter(aborted, capacity, list[..n]) > 0
  }

  lemma WithinGoesOn(aborted: bool, capacity: nat, list: seq<Buffer>, buf: Buffer)
    requires WithinCapacity(aborted, capacity, list) && LeftAfter(aborted, capacity, list) > 0
    ensures WithinCapacity(aborted, capacity, list + [buf])
  {
    forall n | 0 <= n < |list + [buf]| ensures LeftAfter(aborted, capacity, (list + [buf])[..n]) > 0 {
      assert (list + [buf])[..n] == if n == |list| then list else list[..n];
    }
  }

  /** Sends from the slot at `consume` until it is empty or the capacity is used up. */
  method SendSlot(r: UnicastRing, taken: seq<Buffer>, capacity: nat, aborted: bool,
                  ghost total: seq<Buffer>, ghost s: State, ghost u: State, ghost moved: bool)
    returns (sent: seq<Buffer>, ghost t: State)
    requires r.slots.Length == SLOT_COUNT && r.consume != r.produce && r.slots[r.produce] == []
    requires s.c.sending && s.flags.aborted == aborted && WithinCapacity(aborted, capacity, taken)
    requires InOrder(r.slots[..], r.consume, r.produce, taken, total)
    requires Comes(s, u) && u.c.at == Draining
    requires Taking(s, u, r.slots[..], r.produce, r.consume, taken, LeftAfter(aborted, capacity, taken), moved)
    modifies r.slots
    ensures InOrder(r.slots[..], r.consume, r.produce, sent, total) && WithinCapacity(aborted, capacity, sent)
    ensures r.slots[r.produce] == []
    ensures r.slots[r.consume] == [] || LeftAfter(aborted, capacity, sent) == 0
    ensures old(r.slots[r.consume]) == [] ==> sent == taken && r.slots[r.consume] == []
    ensures LeftAfter(aborted, capacity, taken) == 0 ==> sent == taken
    ensures Comes(s, t) && t.c.at == Draining
    ensures Taking(s, t, r.slots[..], r.produce, r.consume, sent, LeftAfter(aborted, capacity, sent), moved)
  {
    hide *;
    sent, t := taken, u;
    var left := LeftAfter(aborted, capacity, taken);
    while left > 0 && r.slots[r.consume] != []
      invariant left == LeftAfter(aborted, capacity, sent) && WithinCapacity(aborted, capacity, sent)
      invariant InOrder(r.slots[..], r.consume, r.produce, sent, total) && r.slots[r.produce] == []
      invariant old(r.slots[r.consume]) == [] ==> sent == taken && r.slots[r.consume] == []
      invariant LeftAfter(aborted, capacity, taken) == 0 ==> sent == taken
      invariant Comes(s, t) && t.c.at == Draining
      invariant Taking(s, t, r.slots[..], r.produce, r.consume, sent, left, moved)
      decreases |r.slots[r.consume]|
    {
      ghost var before := r.slots[..];
      var buf := r.slots[r.consume][0];
      DrainedInOrder(before, r.consume, r.produce, sent, total);
      TakeDrains(s, t, before, r.produce, r.consume, sent, left, moved);
      ComesOn(s, t, Drain);
      t := Step(t, Drain);
      WithinGoesOn(aborted, capacity, sent, buf);
      LeftGoesOn(aborted, capacity, sent, buf);
      left := Less(aborted, true, left, buf);
      sent := sent + [buf];
      r.slots[r.consume] := r.slots[r.consume][1..];
      assert r.slots[..] == before[r.consume := before[r.consume][1..]];
    }
  }

  /** Nothing more can come, and the ring is empty. */
  predicate AllSent(s: State) {
    (s.flags.aborted || s.flags.complete) && s.ring.consume == s.ring.produce
  }

  /** The state, somewhere in the end of a pass. */
  function AtEnd(u: State, at: ConsumerAt, sent: bool): State {
    u.(c := u.c.(at := at, moved := u.c.moved && !sent), flags := u.flags.(sendComplete := u.flags.sendComplete || sent))
  }

  /** Behind the loop of a send pass the message is marked as sent exactly if all is. */
  lemma SendChecks(s: State, u: State)
    requires Comes(s, u) && u.c.at == Finish && u.c.sending
    ensures Comes(s, AtEnd(u, CTail, AllSent(u)))
  {
    hide Comes;
    ComesOn(s, u, ReadAborted);
    if u.flags.aborted {
      assert Step(u, ReadAborted) == AtEnd(u, FinishEmpty, false);
      ComparesIndices(s, u);
    } else {
      var v := AtEnd(u, FinishComplete, false);
      assert Step(u, ReadAborted) == v;
      ComesOn(s, v, ReadComplete);
      assert Step(v, ReadComplete) == AtEnd(u, if u.flags.complete then FinishEmpty else CTail, false);
      if u.flags.complete {
        ComparesIndices(s, u);
      }
    }
  }

  lemma ComparesIndices(s: State, u: State)
    requires Comes(s, AtEnd(u, FinishEmpty, false)) && (u.flags.aborted || u.flags.complete)
    ensures Comes(s, AtEnd(u, CTail, AllSent(u)))
  {
    hide Comes;
    var v := AtEnd(u, FinishEmpty, false);
    ComesOn(s, v, CompareIndices);
    assert Step(v, CompareIndices) == AtEnd(u, if AllSent(u) then Sent else CTail, false);
    if AllSent(u) {
      ComesOn(s, AtEnd(u, Sent, false), MarkSent);
      assert Step(AtEnd(u, Sent, false), MarkSent) == AtEnd(u, CTail, true);
    }
  }

  /** The end of a pass: the producer is woken if a slot was freed and few are full. */
  lemma SendWakes(s: State, u: State) returns (t: State)
    requires Comes(s, u) && u.c.at == CTail
    ensures Comes(s, t) && t.c.at == CIdle && t.ring == u.ring && t.h == u.h && t.flags == u.flags
    ensures t.c.sending == u.c.sending
    ensures t.p == u.p.(woken := u.p.woken || (u.c.moved && FullSlots(u.ring) < 4 && u.p.listens))
  {
    hide Comes, FullSlots;
    ComesOn(s, u, ReadFull);
    t := Step(u, ReadFull);
    if t.c.at == Notify {
      ComesOn(s, t, WakeProducer);
      t := Step(t, WakeProducer);
    }
  }

  /** The end of a send pass: the message is marked as sent if nothing more can come and the ring is empty, and else the
      producer is woken if it may go on. */
  lemma SendEnds(s: State, u: State, slots: seq<seq<Buffer>>, produce: Index, consume: Index,
                 taken: seq<Buffer>, left: nat, moved: bool) returns (t: State)
    requires Taking(s, u, slots, produce, consume, taken, left, moved) && u.c.at == Finish && s.c.sending && Comes(s, u)
    ensures var done := (s.flags.aborted || s.flags.complete) && consume == produce;
      && Comes(s, t) && t.c.at == CIdle && t.c.sending && |slots| == SLOT_COUNT && t.ring == Ring(slots, produce, consume)
      && t.h == s.h.(consumed := s.h.consumed + taken, delivered := s.h.delivered + Delivers(s, taken))
      && t.flags == s.flags.(sendComplete := s.flags.sendComplete || done)
      && t.p == s.p.(woken := s.p.woken || (!done && moved && Distance(produce, consume) < 4 && s.p.listens))
  {
    hide Comes, Distance;
    SendChecks(s, u);
    t := SendWakes(s, AtEnd(u, CTail, AllSent(u)));
  }

  lemma LeftIs(aborted: bool, capacity: nat, list: seq<Buffer>)
    ensures Held(aborted, true, LeftAfter(aborted, capacity, list)) <==> !aborted && OctetsOf(list) >= capacity
    ensures LeftAfter(aborted, capacity, list) == 0 <==> if aborted then capacity == 0 else OctetsOf(list) >= capacity
  {
  }

  lemma WithinMeans(capacity: nat, list: seq<Buffer>)
    ensures WithinCapacity(false, capacity, list) ==> forall n :: 0 <= n < |list| ==> OctetsOf(list[..n]) < capacity
  {
    if WithinCapacity(false, capacity, list) {
      forall n | 0 <= n < |list| ensures OctetsOf(list[..n]) < capacity {
        assert LeftAfter(false, capacity, list[..n]) > 0;
      }
    }
  }

  lemma NothingThere(slots: Slots, c: Index, p: Index)
    requires InOrder(slots, c, p, [], [])
    ensures slots[c] == []
  {
    hide Distance, After, EmptyOutside;
  }

  /** One turn of the loop of a send pass; `left` says whether a slot was freed. */
  method SendTurn(r: UnicastRing, taken: seq<Buffer>, capacity: nat, aborted: bool,
                  ghost total: seq<Buffer>, ghost s: State, ghost u: State, ghost moved: bool)
    returns (sent: seq<Buffer>, left: bool, ghost t: State)
    requires r.slots.Length == SLOT_COUNT && r.consume != r.produce && r.slots[r.produce] == []
    requires s.c.sending && s.flags.aborted == aborted && WithinCapacity(aborted, capacity, taken)
    requires InOrder(r.slots[..], r.consume, r.produce, taken, total)
    requires aborted && capacity == 0 ==> taken == [] && total == []
    requires Comes(s, u) && u.c.at == Test && !u.c.held
    requires Taking(s, u, r.slots[..], r.produce, r.consume, taken, LeftAfter(aborted, capacity, taken), moved)
    modifies r`consume, r.slots
    ensures InOrder(r.slots[..], r.consume, r.produce, sent, total) && WithinCapacity(aborted, capacity, sent)
    ensures r.slots[r.produce] == [] && (aborted && capacity == 0 ==> sent == [])
    ensures left ==> Distance(r.produce, r.consume) < old(Distance(r.produce, r.consume))
    ensures !left ==> r.consume == old(r.consume) && !aborted && OctetsOf(sent) >= capacity
    ensures Comes(s, t) && t.c.at == Test && t.c.held == (!aborted && OctetsOf(sent) >= capacity)
    ensures Taking(s, t, r.slots[..], r.produce, r.consume, sent, LeftAfter(aborted, capacity, sent), moved || left)
  {
    hide *;
    Apart(r.produce, r.consume);
    TakeLoops(s, u, r.slots[..], r.produce, r.consume, taken, LeftAfter(aborted, capacity, taken), moved);
    ComesOn(s, u, ConsumerLoop);
    t := Step(u, ConsumerLoop);
    if aborted && capacity == 0 {
      NothingThere(r.slots[..], r.consume, r.produce);
    }
    sent, t := SendSlot(r, taken, capacity, aborted, total, s, t, moved);
    LeftIs(aborted, capacity, sent);
    TakeLeaves(s, t, r.slots[..], r.produce, r.consume, sent, LeftAfter(aborted, capacity, sent), moved);
    ComesOn(s, t, LeaveSlot);
    t := Step(t, LeaveSlot);
    ComesOn(s, t, ReadHeld);
    t := Step(t, ReadHeld);
    left := r.slots[r.consume] == [];
    if left {
      LeftInOrder(r.slots[..], r.consume, r.produce, sent, total);
      r.consume := After(r.consume);
    }
  }

  lemma Apart(p: Index, c: Index)
    requires p != c
    ensures Distance(p, c) > 0
  {
  }

  /** One pass of an outgoing link. The buffers sent are the front of the ring's contents, up to the first that uses up
      the session's capacity; those of an aborted content are dropped. The message is marked as sent exactly if it was
      or nothing more can come and the ring is empty; else the producer is woken if a slot was freed and few are full. */
  method SendBuffers(r: UnicastRing, capacity: nat, aborted: bool, complete: bool, ghost s: State)
    returns (sent: seq<Buffer>, stalled: bool, done: bool, wake: bool, ghost t: State)
    requires r.Valid() && r.Mirrors(s) && s.c.at == CIdle && s.c.sending
    requires s.flags.aborted == aborted && s.flags.complete == complete
    requires aborted && capacity == 0 ==> r.Contents() == []
    modifies r`consume, r.slots
    ensures r.Valid() && sent + r.Contents() == old(r.Contents())
    ensures aborted ==> r.Contents() == []
    ensures !aborted ==> forall n :: 0 <= n < |sent| ==> OctetsOf(sent[..n]) < capacity
    ensures stalled <==> !aborted && OctetsOf(sent) >= capacity
    ensures !stalled ==> r.consume == r.produce
    ensures done <==> (aborted || complete) && r.consume == r.produce
    ensures wake <==> !done && r.consume != old(r.consume) && Distance(r.produce, r.consume) < 4
    ensures r.Mirrors(t) && Comes(s, t) && t.c.at == CIdle && t.c.sending
    ensures t.flags == s.flags.(sendComplete := s.flags.sendComplete || done)
    ensures t.h.consumed == s.h.consumed + sent && t.h.produced == s.h.produced
    ensures t.h.delivered == s.h.delivered + if aborted then [] else sent
    ensures t.p == s.p.(woken := s.p.woken || (wake && s.p.listens))
  {
    hide RingFrom, EmptyOutside, InOrder, Distance, After, Comes, Step, Enabled, Taking, WithinCapacity, LeftAfter;
    ghost var total := r.Contents();
    ghost var u := s;
    sent := [];
    var moved := false;
    r.WholeInOrder([], total);
    ComesStart(s);
    TakeStarts(s, capacity);
    ComesOn(s, s, PassOf(s, capacity));
    u := Step(s, PassOf(s, capacity));
    NothingTaken(aborted, capacity);
    stalled := !aborted && capacity == 0;
    while !stalled && r.consume != r.produce
      invariant r.slots.Length == SLOT_COUNT && r.slots[r.produce] == []
      invariant InOrder(r.slots[..], r.consume, r.produce, sent, total) && WithinCapacity(aborted, capacity, sent)
      invariant stalled == (!aborted && OctetsOf(sent) >= capacity)
      invariant aborted && capacity == 0 ==> sent == [] && total == []
      invariant Distance(r.produce, r.consume) <= old(Distance(r.produce, r.consume))
      invariant moved <==> Distance(r.produce, r.consume) < old(Distance(r.produce, r.consume))
      invariant moved || r.consume == old(r.consume)
      invariant Comes(s, u) && u.c.at == Test && u.c.held == stalled
      invariant Taking(s, u, r.slots[..], r.produce, r.consume, sent, LeftAfter(aborted, capacity, sent), moved)
      decreases Distance(r.produce, r.consume), !stalled
    {
      var left;
      sent, left, u := SendTurn(r, sent, capacity, aborted, total, s, u, moved);
      moved := moved || left;
      stalled := !aborted && OctetsOf(sent) >= capacity;
    }
    WithinMeans(capacity, sent);
    r.WholeInOrder(sent, total);
    done := (aborted || complete) && r.consume == r.produce;
    wake := moved && !done && Distance(r.produce, r.consume) < 4;
    TakeLoops(s, u, r.slots[..], r.produce, r.consume, sent, LeftAfter(aborted, capacity, sent), moved);
    ComesOn(s, u, ConsumerLoop);
    u := Step(u, ConsumerLoop);
    t := SendEnds(s, u, r.slots[..], r.produce, r.consume, sent, LeftAfter(aborted, capacity, sent), moved);
  }

  lemma NothingTaken(aborted: bool, capacity: nat)
    ensures WithinCapacity(aborted, capacity, []) && LeftAfter(aborted, capacity, []) == capacity
  {
  }

  /** A pass over an aborted content that is given no capacity goes round for ever, unless it finds nothing: three steps
      lead back to the same state. `SendBuffers` says what every other pass does. */
  lemma NoCapacityNoEnd(s: State)
    requires s.c.at == Test && s.c.sending && s.flags.aborted && s.c.limit == 0 && !s.c.held
    requires s.ring.consume != s.ring.produce && s.ring.slots[s.ring.consume] != []
    ensures Enabled(s, ConsumerLoop) && Enabled(Step(s, ConsumerLoop), LeaveSlot)
    ensures Enabled(Step(Step(s, ConsumerLoop), LeaveSlot), ReadHeld)
    ensures Step(Step(Step(s, ConsumerLoop), LeaveSlot), ReadHeld) == s
  {
    Apart(s.ring.produce, s.ring.consume);
    hide Distance;
  }

  // ---------------------------------------------------------------- receiving

  /** Where a receive pass stands: what it has taken from the link, and the ring. */
  ghost predicate Receiving(s: State, u: State, slots: seq<seq<Buffer>>, produce: Index, consume: Index,
                            taken: seq<Buffer>, moved: bool) {
    && |slots| == SLOT_COUNT && u.ring == Ring(slots, produce, consume)
    && u.h == s.h.(produced := s.h.produced + taken)
    && u.flags == s.flags && u.c == s.c && u.p.moved == moved && u.p.listens == s.p.listens
  }

  lemma ReceiveStarts(s: State) returns (t: State)
    requires s.p.at == PIdle
    ensures Comes(s, t) && t.p.at == PLoop
    ensures t.p.stalled <==> Distance(s.ring.consume, s.ring.produce) == 1
    ensures Receiving(s, t, s.ring.slots, s.ring.produce, s.ring.consume, [], false)
  {
    hide Comes, Distance;
    ComesStart(s);
    ComesOn(s, s, ReceivePass);
    t := Step(s, ReceivePass);
    ComesOn(s, t, Look);
    t := Step(t, Look);
    assert s.h.produced + [] == s.h.produced;
  }

  lemma ReceiveLoops(s: State, u: State, slots: seq<seq<Buffer>>, produce: Index, consume: Index,
                     taken: seq<Buffer>, moved: bool)
    requires Receiving(s, u, slots, produce, consume, taken, moved) && u.p.at == PLoop
    ensures Enabled(u, ProducerLoop)
    ensures var t := Step(u, ProducerLoop);
      && Receiving(s, t, slots, produce, consume, taken, moved)
      && t.p.stalled == u.p.stalled
      && t.p.at == if u.p.stalled || s.flags.complete then PTail else Filling(16)
  {
  }

  lemma ReceiveOne(s: State, u: State, slots: seq<seq<Buffer>>, produce: Index, consume: Index,
                   taken: seq<Buffer>, moved: bool, buf: Buffer)
    requires Receiving(s, u, slots, produce, consume, taken, moved) && u.p.at.Filling? && u.p.at.room > 0
    ensures Enabled(u, Receive(buf))
    ensures var t := Step(u, Receive(buf));
      && t.p.at == Filling(u.p.at.room - 1) && t.p.stalled == u.p.stalled
      && Receiving(s, t, slots[produce := slots[produce] + [buf]], produce, consume, taken + [buf], moved)
  {
    assert s.h.produced + taken + [buf] == s.h.produced + (taken + [buf]);
  }

  /** Fills the slot at `produce` from the link: at most 16 buffers, or all that is there. The link reports its end only
      when it is asked for more than it has. */
  method FillSlot(r: UnicastRing, available: seq<Buffer>, ended: bool, from: nat,
                  ghost before: seq<Buffer>, ghost s: State, ghost u: State, ghost moved: bool)
    returns (got: nat, over: bool, ghost t: State)
    requires r.slots.Length == SLOT_COUNT && r.slots[r.produce] == [] && from <= |available|
    requires InOrder(r.slots[..], r.consume, r.produce, [], before + available[..from])
    requires Comes(s, u) && u.p.at == Filling(16) && !u.p.stalled
    requires Receiving(s, u, r.slots[..], r.produce, r.consume, available[..from], moved)
    modifies r.slots
    ensures got == (if |available| - from < 16 then |available| - from else 16) && (over <==> got < 16 && ended)
    ensures InOrder(r.slots[..], r.consume, r.produce, [], before + available[..from + got])
    ensures r.slots[r.produce] == [] <==> got == 0
    ensures Comes(s, t) && t.p.at.Filling? && !t.p.stalled
    ensures Receiving(s, t, r.slots[..], r.produce, r.consume, available[..from + got], moved)
  {
    hide *;
    got, t := 0, u;
    while got < 16 && from + got < |available|
      invariant got <= 16 && from + got <= |available|
      invariant InOrder(r.slots[..], r.consume, r.produce, [], before + available[..from + got])
      invariant |r.slots[r.produce]| == got
      invariant Comes(s, t) && t.p.at == Filling(16 - got) && !t.p.stalled
      invariant Receiving(s, t, r.slots[..], r.produce, r.consume, available[..from + got], moved)
    {
      ghost var old', taken := r.slots[..], available[..from + got];
      var buf := available[from + got];
      StagedInOrder(old', r.consume, r.produce, [], before + taken, [buf]);
      ReceiveOne(s, t, old', r.produce, r.consume, taken, moved, buf);
      ComesOn(s, t, Receive(buf));
      t := Step(t, Receive(buf));
      assert taken + [buf] == available[..from + got + 1];
      assert before + taken + [buf] == before + (taken + [buf]);
      r.slots[r.produce] := r.slots[r.produce] + [buf];
      assert r.slots[..] == old'[r.produce := old'[r.produce] + [buf]];
      got := got + 1;
    }
    over := got < 16 && ended;
  }

  /** A slot that holds something is published; the ring is looked at again. */
  lemma ReceivePublishes(s: State, u: State, slots: seq<seq<Buffer>>, produce: Index, consume: Index,
                         taken: seq<Buffer>, moved: bool, ended: bool) returns (t: State)
    requires Receiving(s, u, slots, produce, consume, taken, moved) && u.p.at.Filling? && Comes(s, u)
    requires slots[produce] != [] && !u.p.stalled
    ensures Comes(s, t) && t.p.at == if ended then Ending else PLoop
    ensures Receiving(s, t, slots, After(produce), consume, taken, true)
    ensures t.p.stalled <==> Distance(consume, After(produce)) == 1
  {
    hide Comes, Distance, After;
    ComesOn(s, u, NoMore(ended));
    t := Step(u, NoMore(ended));
    ComesOn(s, t, Advance);
    t := Step(t, Advance);
    ComesOn(s, t, LookAgain);
    t := Step(t, LookAgain);
  }

  lemma ReceiveStops(s: State, u: State, slots: seq<seq<Buffer>>, produce: Index, consume: Index,
                     taken: seq<Buffer>, moved: bool, ended: bool)
    requires Receiving(s, u, slots, produce, consume, taken, moved) && u.p.at.Filling? && slots[produce] == []
    ensures Enabled(u, NoMore(ended)) && Step(u, NoMore(ended)).p.at == if ended then Ending else PTail
    ensures Receiving(s, Step(u, NoMore(ended)), slots, produce, consume, taken, moved)
  {
  }

  /** The end of a receive pass. */
  lemma ReceiveEnds(s: State, u: State, slots: seq<seq<Buffer>>, produce: Index, consume: Index,
                    taken: seq<Buffer>, moved: bool, aborting: bool) returns (t: State)
    requires Receiving(s, u, slots, produce, consume, taken, moved) && Comes(s, u) && (u.p.at == Ending || u.p.at == PTail)
    ensures var over := u.p.at == Ending;
      && Comes(s, t) && t.p.at == PIdle && |slots| == SLOT_COUNT && t.ring == Ring(slots, produce, consume)
      && t.h == s.h.(produced := s.h.produced + taken)
      && t.flags == s.flags.(complete := s.flags.complete || over, aborted := s.flags.aborted || (over && aborting))
      && t.c == s.c.(woken := s.c.woken || (moved && s.c.listens))
  {
    hide Comes;
    if u.p.at == Ending {
      ComesAborted(s, u, aborting);
      var v := Aborted(u, aborting);
      ComesOn(s, v, MarkComplete);
      t := WakesConsumer(s, Step(v, MarkComplete));
    } else {
      t := WakesConsumer(s, u);
    }
  }

  function Aborted(u: State, aborting: bool): State {
    u.(flags := u.flags.(aborted := u.flags.aborted || aborting))
  }

  lemma ComesAborted(s: State, u: State, aborting: bool)
    requires Comes(s, u)
    ensures Comes(s, Aborted(u, aborting))
  {
    hide Comes;
    if aborting {
      ComesOn(s, u, Abort);
      assert Step(u, Abort) == Aborted(u, true);
    } else {
      assert Aborted(u, false) == u;
    }
  }

  lemma WakesConsumer(s: State, u: State) returns (t: State)
    requires Comes(s, u) && u.p.at == PTail
    ensures Comes(s, t) && t.p.at == PIdle && t.ring == u.ring && t.h == u.h && t.flags == u.flags
    ensures t.c == u.c.(woken := u.c.woken || (u.p.moved && u.c.listens))
  {
    hide Comes;
    ComesOn(s, u, WakeConsumer);
    t := Step(u, WakeConsumer);
  }

  /** What a receive pass has done: the link's first `got` buffers are in the ring, 16 to a slot. */
  ghost predicate Filled(r: UnicastRing, available: seq<Buffer>, got: nat, n: nat, before: seq<Buffer>, full: nat)
    reads r, r.slots
  {
    && r.slots.Length == SLOT_COUNT && r.slots[r.produce] == [] && got <= |available|
    && InOrder(r.slots[..], r.consume, r.produce, [], before + available[..got])
    && Distance(r.produce, r.consume) == full + n && 16 * n - 16 < got <= 16 * n
    && (got < 16 * n ==> got == |available|)
  }

  /** One pass of an incoming link that has these buffers and then, perhaps, its end. They go into the ring 16 to a slot,
      until it is full or they are used up. The message is complete exactly if it was or the end was reported; the
      consumer is woken if a slot was filled. */
  method ReceiveBuffers(r: UnicastRing, available: seq<Buffer>, ended: bool, aborting: bool, complete: bool, ghost s: State)
    returns (got: nat, n: nat, over: bool, ghost t: State)
    requires r.Valid() && r.Mirrors(s) && s.p.at == PIdle && s.flags.complete == complete
    modifies r`produce, r.slots
    ensures r.Valid() && got <= |available| && r.Contents() == old(r.Contents()) + available[..got]
    ensures Distance(r.produce, r.consume) == old(Distance(r.produce, r.consume)) + n && 16 * n - 16 < got <= 16 * n
    ensures complete ==> n == 0
    ensures !complete && got < |available| ==> got == 16 * n && Distance(r.produce, r.consume) == 7
    ensures over <==> ended && !complete && got == |available| && (got < 16 * n || Distance(r.consume, r.produce) != 1)
    ensures r.Mirrors(t) && Comes(s, t) && t.p.at == PIdle
    ensures t.h == s.h.(produced := s.h.produced + available[..got])
    ensures t.flags == s.flags.(complete := complete || over, aborted := s.flags.aborted || (over && aborting))
    ensures t.c == s.c.(woken := s.c.woken || (n > 0 && s.c.listens))
  {
    hide RingFrom, EmptyOutside, InOrder, Distance, After, Comes, Step, Enabled, Receiving;
    ghost var before, full := r.Contents(), Distance(r.produce, r.consume);
    ghost var u := ReceiveStarts(s);
    got, n, over := 0, 0, false;
    assert before + available[..0] == before && available[..0] == [];
    r.WholeInOrder([], before);
    var stalled := Distance(r.consume, r.produce) == 1;
    var going := !stalled && !complete;
    while going
      invariant Filled(r, available, got, n, before, full)
      invariant stalled <==> Distance(r.consume, r.produce) == 1
      invariant Comes(s, u) && Receiving(s, u, r.slots[..], r.produce, r.consume, available[..got], n > 0)
      invariant over ==> u.p.at == Ending && !going && ended && !complete && got == |available| && (got < 16 * n || !stalled)
      invariant !over ==> u.p.at == PTail || (u.p.at == PLoop && u.p.stalled == stalled && (going || stalled || complete))
      invariant u.p.at == PTail ==> !going && !ended && got == |available| && !complete
      invariant going ==> u.p.at == PLoop && !stalled && !complete
      invariant complete ==> n == 0
      invariant !over && ended ==> got == 16 * n
      decreases |available| - got, going
    {
      var k;
      k, over, u := ReceiveTurn(r, available, ended, got, n, before, full, s, u);
      if k > 0 {
        n := n + 1;
        stalled := Distance(r.consume, r.produce) == 1;
      }
      got := got + k;
      going := !over && k > 0 && !stalled;
    }
    r.WholeInOrder([], before + available[..got]);
    assert [] + r.Contents() == r.Contents();
    FullMeans(Ring(r.slots[..], r.produce, r.consume));
    if u.p.at == PLoop {
      ReceiveLoops(s, u, r.slots[..], r.produce, r.consume, available[..got], n > 0);
      ComesOn(s, u, ProducerLoop);
      u := Step(u, ProducerLoop);
    }
    t := ReceiveEnds(s, u, r.slots[..], r.produce, r.consume, available[..got], n > 0, aborting);
  }

  /** One turn of the loop of a receive pass. */
  method ReceiveTurn(r: UnicastRing, available: seq<Buffer>, ended: bool, got: nat, ghost n: nat,
                     ghost before: seq<Buffer>, ghost full: nat, ghost s: State, ghost u: State)
    returns (k: nat, over: bool, ghost t: State)
    requires Filled(r, available, got, n, before, full) && Distance(r.consume, r.produce) != 1
    requires Comes(s, u) && u.p.at == PLoop && !u.p.stalled && !s.flags.complete
    requires Receiving(s, u, r.slots[..], r.produce, r.consume, available[..got], n > 0)
    modifies r`produce, r.slots
    ensures k == (if |available| - got < 16 then |available| - got else 16) && (over <==> k < 16 && ended)
    ensures Filled(r, available, got + k, if k > 0 then n + 1 else n, before, full)
    ensures k == 0 ==> r.produce == old(r.produce)
    ensures Comes(s, t) && Receiving(s, t, r.slots[..], r.produce, r.consume, available[..got + k], n > 0 || k > 0)
    ensures t.p.at == if over then Ending else if k == 0 then PTail else PLoop
    ensures k > 0 ==> (t.p.stalled <==> Distance(r.consume, r.produce) == 1)
  {
    hide RingFrom, EmptyOutside, InOrder, Distance, After, Comes, Step, Enabled, Receiving;
    ReceiveLoops(s, u, r.slots[..], r.produce, r.consume, available[..got], n > 0);
    ComesOn(s, u, ProducerLoop);
    t := Step(u, ProducerLoop);
    k, over, t := FillSlot(r, available, ended, got, before, s, t, n > 0);
    if k > 0 {
      FullMeans(Ring(r.slots[..], r.produce, r.consume));
      PublishedInOrder(r.slots[..], r.consume, r.produce, [], before + available[..got + k]);
      t := ReceivePublishes(s, t, r.slots[..], r.produce, r.consume, available[..got + k], n > 0, over);
      r.produce := After(r.produce);
    } else {
      ReceiveStops(s, t, r.slots[..], r.produce, r.consume, available[..got], n > 0, over);
      ComesOn(s, t, NoMore(over));
      t := Step(t, NoMore(over));
    }
  }

  // ---------------------------------------------------------------- a whole message

  lemma ComesFurther(s: State, t: State, u: State)
    requires Comes(s, t) && Comes(t, u)
    ensures Comes(s, u)
  {
    hide Step, Enabled;
    var ss, aa :| Leads(s, ss, aa, t);
    var tt, bb :| Leads(t, tt, bb, u);
    var states, actions := ss + tt[1..], aa + bb;
    forall i | 0 <= i < |actions| ensures Enabled(states[i], actions[i]) && states[i + 1] == Step(states[i], actions[i]) {
      if i >= |aa| {
        assert states[i] == tt[i - |aa|] && states[i + 1] == tt[i + 1 - |aa|] && actions[i] == bb[i - |aa|];
      } else {
        assert states[i] == ss[i] && states[i + 1] == ss[i + 1] && actions[i] == aa[i];
      }
    }
    assert Leads(s, states, actions, u);
  }

  /** An adaptor that looks at the ring finds room exactly if it is not full. */
  lemma PollSteps(s: State) returns (t: State)
    requires s.p.at == PIdle && !s.flags.complete
    ensures Comes(s, t) && t.ring == s.ring && t.flags == s.flags && t.h == s.h && t.c == s.c
    ensures t.p.at == if Distance(s.ring.consume, s.ring.produce) == 1 then PIdle else Ready
  {
    hide Comes, Distance;
    ComesStart(s);
    ComesOn(s, s, Poll);
    t := Step(s, Poll);
    ComesOn(s, t, Look);
    t := Step(t, Look);
  }

  lemma CompleteSteps(s: State) returns (t: State)
    requires Comes(s, s) && s.p.at == PIdle
    ensures Comes(s, t) && t == s.(flags := s.flags.(complete := true))
  {
    hide Comes;
    ComesOn(s, s, Complete);
    t := Step(s, Complete);
  }

  /** Between the calls of a relay: what was sent and what is in the ring is what was offered, in order. */
  ghost predicate Relayed(r: UnicastRing, first: State, s: State, sent: seq<Buffer>, offered: seq<Buffer>)
    reads r, r.slots
  {
    && r.Valid() && r.Mirrors(s) && Comes(first, s) && s.p.at == PIdle && s.c.at == CIdle && s.c.sending
    && !s.flags.aborted && s.h.delivered == sent && sent + r.Contents() == offered
  }

  /** One send pass of a relay. */
  method RelaySend(r: UnicastRing, capacity: nat, complete: bool, sent: seq<Buffer>,
                   ghost first: State, ghost s: State, ghost offered: seq<Buffer>)
    returns (more: seq<Buffer>, done: bool, ghost t: State)
    requires Relayed(r, first, s, sent, offered) && s.flags.complete == complete && capacity > 0
    modifies r`consume, r.slots
    ensures Relayed(r, first, t, more, offered)
    ensures |r.Contents()| < |old(r.Contents())| || (r.consume == r.produce && |r.Contents()| <= |old(r.Contents())|)
    ensures done <==> complete && r.consume == r.produce
    ensures t.flags == s.flags.(sendComplete := s.flags.sendComplete || done)
  {
    hide Comes, InOrder, EmptyOutside, RingFrom, Distance;
    var out, stalled, wake;
    ghost var before := r.Contents();
    out, stalled, done, wake, t := SendBuffers(r, capacity, false, complete, s);
    ComesFurther(first, s, t);
    more := sent + out;
    assert sent + (out + r.Contents()) == (sent + out) + r.Contents();
    assert stalled ==> out != [] && |before| == |out| + |r.Contents()|;
  }

  /** A whole message through the ring: its lists of buffers are offered one by one as there is room, and sent in passes
      of any capacity. In the end all of it has been delivered, in order, and is marked as sent. */
  method Relay(lists: seq<seq<Buffer>>, capacity: nat -> nat, ghost first: State) returns (sent: seq<Buffer>, ghost t: State)
    requires forall k :: capacity(k) > 0
    requires Initial(first) && first.c.sending
    ensures sent == Buffers.Flat(lists) && t.h.delivered == sent && t.flags.sendComplete && Comes(first, t)
  {
    hide Comes, InOrder, EmptyOutside, RingFrom, Distance, Leads;
    var r := new UnicastRing();
    sent, t := [], first;
    RelayStarts(r, first);
    var k := 0;
    for n := 0 to |lists|
      invariant Relayed(r, first, t, sent, Buffers.Flat(lists[..n])) && !t.flags.complete && fresh(r.slots)
    {
      while !r.CanProduce()
        invariant Relayed(r, first, t, sent, Buffers.Flat(lists[..n])) && !t.flags.complete && fresh(r.slots)
        decreases |r.Contents()|, if r.consume == r.produce then 0 else 1
      {
        NotFullWhenEmpty(r.produce, r.consume);
        var done;
        sent, done, t := RelaySend(r, capacity(k), false, sent, first, t, Buffers.Flat(lists[..n]));
        k := k + 1;
      }
      t := RelayPut(r, lists[n], sent, first, t, Buffers.Flat(lists[..n]));
      assert lists[..n + 1][..n] == lists[..n];
    }
    assert lists[..|lists|] == lists;
    var done := false;
    ghost var u := t;
    ComesStart(t);
    t := CompleteSteps(u);
    ComesFurther(first, u, t);
    while !done
      invariant Relayed(r, first, t, sent, Buffers.Flat(lists)) && t.flags.complete && fresh(r.slots)
      invariant done ==> r.consume == r.produce && t.flags.sendComplete
      decreases |r.Contents()|, if r.consume == r.produce then 0 else 1, !done
    {
      sent, done, t := RelaySend(r, capacity(k), true, sent, first, t, Buffers.Flat(lists));
      k := k + 1;
    }
    NothingIn(r);
  }

  lemma NotFullWhenEmpty(p: Index, c: Index)
    ensures Distance(c, p) == 1 ==> p != c
  {
  }

  lemma NothingIn(r: UnicastRing)
    requires r.Valid() && r.consume == r.produce
    ensures r.Contents() == []
  {
  }

  lemma RelayStarts(r: UnicastRing, first: State)
    requires r.Valid() && r.Contents() == [] && r.slots[..] == [[], [], [], [], [], [], [], []] && r.produce == 0 == r.consume
    requires Initial(first) && first.c.sending
    ensures Relayed(r, first, first, [], []) && !first.flags.complete
  {
    ComesStart(first);
  }

  method RelayPut(r: UnicastRing, list: seq<Buffer>, sent: seq<Buffer>, ghost first: State, ghost s: State,
                  ghost offered: seq<Buffer>) returns (ghost t: State)
    requires Relayed(r, first, s, sent, offered) && !s.flags.complete && r.CanProduce()
    modifies r`produce, r.slots
    ensures Relayed(r, first, t, sent, offered + list) && !t.flags.complete
  {
    hide Comes, InOrder, EmptyOutside, RingFrom, Distance, Leads;
    ghost var u := PollSteps(s);
    ghost var states, actions;
    t, states, actions := r.ProduceBuffers(list, u);
    LeadsComes(u, states, actions, t);
    ComesFurther(first, s, u);
    ComesFurther(first, u, t);
    assert sent + (old(r.Contents()) + list) == sent + old(r.Contents()) + list;
  }
}
