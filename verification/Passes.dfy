/** The loops around the shared content: one pass of the receiver over a delivery, and one pass of
    an outgoing copy over its link. Each turn of a loop takes the content's lock once, so a pass is
    a series of the steps in `Multicast`, with any steps of other threads between the turns. */
module Passes {
  import opened Basics
  import opened Buffers
  import opened Multicast

  /** A series of steps. */
  ghost predicate Series(states: seq<State>, actions: seq<Action>) {
    && |states| == |actions| + 1
    && forall k :: 0 <= k < |actions| ==> Enabled(states[k], actions[k]) && states[k + 1] == Step(states[k], actions[k])
  }

  ghost predicate Leads(s: State, states: seq<State>, actions: seq<Action>, t: State) {
    Series(states, actions) && states[0] == s && states[|actions|] == t
  }

  lemma LeadsOn(s: State, states: seq<State>, actions: seq<Action>, t: State, a: Action)
    requires Leads(s, states, actions, t) && Enabled(t, a)
    ensures Leads(s, states + [Step(t, a)], actions + [a], Step(t, a))
  {
    hide Step, Enabled;
  }

  /** A pass goes on where a run has come to. */
  lemma RunGoesOn(before: seq<State>, done: seq<Action>, states: seq<State>, actions: seq<Action>)
    requires Run(before, done) && Series(states, actions) && states[0] == before[|done|]
    ensures Run(before + states[1..], done + actions)
  {
    hide Step, Enabled, Initial;
    var all, acts := before + states[1..], done + actions;
    assert forall k :: |done| <= k < |all| ==> all[k] == states[k - |done|];
  }

  // ---------------------------------------------------------------- sending

  predicate OfCopy(a: Action, i: nat) {
    a == SendFails(i) || a == Settle(i) || (a.Transfer? && a.i == i)
  }

  /** A step of another thread while copy `i` is being sent; its owner does not free it meanwhile. */
  predicate NotOfCopy(a: Action, i: nat) {
    (a.Begin? || a.Transfer? || a.Settle? || a.SendFails? || a.Free?) ==> a.i != i
  }

  /** The buffers of the copy. */
  function Own(s: State, i: nat): seq<Buffer>
    requires i < |s.copies|
  {
    Masked(s.chain.data, s.copies[i].missing)
  }

  /** Where in the stream of its buffers the copy stands. */
  function SentTo(s: State, i: nat): nat
    requires i < |s.copies| && s.copies[i].start <= |s.chain.data|
  {
    Origin(Own(s, i), s.copies[i]) + |s.copies[i].sent|
  }

  /** It is the same copy, which may have sent more. */
  predicate SameCopy(s: State, t: State, i: nat) {
    && i < |s.copies| && i < |t.copies|
    && t.copies[i].start == s.copies[i].start && t.copies[i].skip == s.copies[i].skip
    && t.copies[i].missing == s.copies[i].missing && s.copies[i].sent <= t.copies[i].sent
  }

  ghost predicate Sending(s: State, i: nat) {
    Inv(s) && Active(s, i) && s.copies[i].started
  }

  /** The cursor stands in a buffer, with this many octets of it to send. */
  function InBuffer(s: State, i: nat): (n: nat)
    requires Sending(s, i) && s.copies[i].at.In?
    ensures s.copies[i].at.buf < |s.chain.data| && s.copies[i].off + n == |s.chain.data[s.copies[i].at.buf]|
  {
    assert CopyOk(s.chain, s.copies[i], s.complete, s.aborted);
    |s.chain.data[s.copies[i].at.buf]| - s.copies[i].off
  }

  lemma StandsInside(s: State, i: nat)
    requires Sending(s, i)
    ensures s.copies[i].start < |s.chain.data| && SentTo(s, i) <= |Flat(Own(s, i))|
    ensures s.copies[i].at.Nowhere? ==> SentTo(s, i) == |Flat(Own(s, i))|
    ensures s.copies[i].at.In? && InBuffer(s, i) == 0 && NextIn(s.chain.list, s.copies[i].at.buf).Nowhere? ==>
              SentTo(s, i) == |Flat(Own(s, i))|
  {
    hide Flat, Offset;
    var c, own := s.copies[i], Own(s, i);
    assert CopyOk(s.chain, c, s.complete, s.aborted);
    if c.at.In? {
      NextIsListed(s.chain.list, c.at.buf);
      OffsetStep(own, c.at.buf);
      OffsetEnd(own);
      if NextIn(s.chain.list, c.at.buf).Nowhere? {
        OffsetSkips(own, c.at.buf + 1, |own|);
      }
    }
  }

  /** The first send of a copy: an aborted content is complete at once, with nothing sent; any other is sent from the
      head of the list on, less the section that is skipped. */
  lemma BeginMoves(s: State, i: nat, skip: nat)
    requires Inv(s) && Enabled(s, Begin(i, skip))
    ensures var t := Step(s, Begin(i, skip));
      && t.aborted == s.aborted && t.chain.list == s.chain.list && i < |t.copies| && t.copies[i].sent == []
      && (s.aborted ==> t.copies[i].sendComplete)
      && (!s.aborted ==>
            && Sending(t, i) && t.copies[i].start == s.chain.list[0] && t.copies[i].start <= |t.chain.data|
            && SentTo(t, i) == Offset(Own(t, i), s.chain.list[0]) + skip)
  {
    StepKeepsInv(s, Begin(i, skip));
    assert CopyOk(s.chain, s.copies[i], s.complete, s.aborted);
    var t := Step(s, Begin(i, skip));
    if !s.aborted {
      assert CopyOk(t.chain, t.copies[i], t.complete, t.aborted);
    }
    hide Offset, Flat, Advance, Masked, Noted, Counted, Gaps;
  }

  lemma TransferMoves(s: State, i: nat, n: nat)
    requires Sending(s, i) && s.copies[i].at.In? && !s.aborted && n <= InBuffer(s, i)
    ensures Enabled(s, Transfer(i, n))
    ensures var t := Step(s, Transfer(i, n));
      && Sending(t, i) && SameCopy(s, t, i) && !t.aborted && t.complete == s.complete
      && t.copies[i].at == s.copies[i].at && InBuffer(t, i) == InBuffer(s, i) - n
      && |t.copies[i].sent| == |s.copies[i].sent| + n
  {
    hide Inv;
    assert s.copies[i].off + InBuffer(s, i) == |s.chain.data[s.copies[i].at.buf]|;
    StepKeepsInv(s, Transfer(i, n));
  }

  /** Once a buffer is sent whole, the copy moves to the next listed; without one it is done, or waits. */
  lemma SettleMoves(s: State, i: nat)
    requires Sending(s, i) && s.copies[i].at.In? && !s.aborted && InBuffer(s, i) == 0
    ensures Enabled(s, Settle(i))
    ensures var t := Step(s, Settle(i)); var next := NextIn(s.chain.list, s.copies[i].at.buf);
      && Sending(t, i) && SameCopy(s, t, i) && !t.aborted && t.complete == s.complete
      && t.copies[i].sent == s.copies[i].sent
      && (next.In? ==> s.copies[i].at.buf < next.buf && t.copies[i].at == next && InBuffer(t, i) > 0)
      && (next.Nowhere? ==> SentTo(s, i) == |Flat(Own(s, i))| && SentTo(t, i) == |Flat(Own(t, i))|)
      && (next.Nowhere? && s.complete ==> t.copies[i].at == Nowhere && t.copies[i].sendComplete)
  {
    hide *;
    SettleCan(s, i);
    StandsInside(s, i);
    StepKeepsInv(s, Settle(i));
    SettleStands(s, i);
    SettleSending(s, i);
  }

  lemma SettleCan(s: State, i: nat)
    requires Sending(s, i) && s.copies[i].at.In? && InBuffer(s, i) == 0
    ensures Inv(s) && i < |s.copies| && Enabled(s, Settle(i)) && s.copies[i].start < |s.chain.data|
    ensures var next := NextIn(s.chain.list, s.copies[i].at.buf); next.In? ==> s.copies[i].at.buf < next.buf
  {
    hide *;
    StandsListed(s, i);
    SettleEnabled(s, i);
    NextIsListed(s.chain.list, s.copies[i].at.buf);
  }

  lemma SettleEnabled(s: State, i: nat)
    requires Sending(s, i) && s.copies[i].at.In? && InBuffer(s, i) == 0
    ensures Inv(s) && Enabled(s, Settle(i))
  {
    hide Inv, InBuffer;
    var n := InBuffer(s, i);
  }

  lemma StandsListed(s: State, i: nat)
    requires Sending(s, i) && s.copies[i].at.In?
    ensures i < |s.copies| && Sorted(s.chain.list) && s.copies[i].at.buf in s.chain.list
    ensures s.copies[i].at.buf < |s.chain.data|
    ensures s.copies[i].start < |s.chain.data|
  {
    assert CopyOk(s.chain, s.copies[i], s.complete, s.aborted);
    hide Offset, Flat, Masked, Holders, LiveCopies, Counted, KeptOk;
  }

  lemma SettleSending(s: State, i: nat)
    requires Enabled(s, Settle(i)) && Inv(Step(s, Settle(i))) && i < |Step(s, Settle(i)).copies|
    requires Active(Step(s, Settle(i)), i) && Step(s, Settle(i)).copies[i].started
    ensures var t := Step(s, Settle(i));
      Sending(t, i) && (t.copies[i].at.In? && t.copies[i].off == 0 ==> InBuffer(t, i) > 0)
  {
    var t := Step(s, Settle(i));
    hide Step, Enabled;
    assert CopyOk(t.chain, t.copies[i], t.complete, t.aborted);
    hide Offset, Flat, Masked, Holders, LiveCopies;
  }

  lemma SettleStands(s: State, i: nat)
    requires i < |s.copies| && s.copies[i].start <= |s.chain.data| && Enabled(s, Settle(i))
    ensures var t := Step(s, Settle(i)); var next := NextIn(s.chain.list, s.copies[i].at.buf);
      && i < |t.copies| && SameCopy(s, t, i) && t.aborted == s.aborted && t.complete == s.complete
      && t.chain.data == s.chain.data && Active(t, i) && t.copies[i].started
      && t.copies[i].sent == s.copies[i].sent && SentTo(t, i) == SentTo(s, i) && Own(t, i) == Own(s, i)
      && (next.In? ==> t.copies[i].at == next && t.copies[i].off == 0)
      && (next.Nowhere? && s.complete ==> t.copies[i].at == Nowhere && t.copies[i].sendComplete)
  {
    hide NextIn, GiveBack, Masked, Offset, Flat;
  }

  lemma FailsMoves(s: State, i: nat)
    requires Sending(s, i)
    ensures Enabled(s, SendFails(i))
    ensures var t := Step(s, SendFails(i));
      && Sending(t, i) && SameCopy(s, t, i) && t.aborted && t.copies[i].sendComplete
      && t.copies[i].sent == s.copies[i].sent
  {
    hide Inv;
    StepKeepsInv(s, SendFails(i));
  }

  /** Whatever other threads do, the copy stays where it is, and its buffer stays as it is. */
  lemma OthersMove(s: State, a: Action, i: nat)
    requires Sending(s, i) && Enabled(s, a) && NotOfCopy(a, i)
    ensures Sending(Step(s, a), i) && Step(s, a).copies[i] == s.copies[i]
    ensures s.copies[i].at.In? ==> InBuffer(Step(s, a), i) == InBuffer(s, i)
    ensures s.aborted ==> Step(s, a).aborted
  {
    StepKeepsInv(s, a);
    OthersLeave(s, a, i);
    hide Inv, Step, Enabled;
  }

  lemma OthersLeave(s: State, a: Action, i: nat)
    requires Enabled(s, a) && NotOfCopy(a, i) && i < |s.copies|
    ensures i < |Step(s, a).copies| && Step(s, a).copies[i] == s.copies[i]
    ensures s.chain.data <= Step(s, a).chain.data
    ensures s.aborted ==> Step(s, a).aborted
  {
    hide NextIn, GiveBack, Masked, Offset, Flat, Advance, Gaps, CountUpTo, Shifted, Noted;
    if OfReceiver(a) {
      hide CopyStep;
    } else {
      hide ReceiverStep;
    }
  }

  /** What holds between turns: the copy has sent `limit - left` octets more than at first. */
  ghost predicate Underway(s: State, t: State, i: nat, states: seq<State>, actions: seq<Action>, limit: nat, left: nat) {
    && Sending(t, i) && SameCopy(s, t, i) && left <= limit
    && Leads(s, states, actions, t) && (forall a :: a in actions ==> OfCopy(a, i) || NotOfCopy(a, i))
    && |t.copies[i].sent| == |s.copies[i].sent| + (limit - left)
  }

  lemma UnderwayOn(s: State, t: State, i: nat, states: seq<State>, actions: seq<Action>, limit: nat, left: nat,
                   a: Action, taken: nat)
    requires Underway(s, t, i, states, actions, limit, left) && taken <= left && Enabled(t, a)
    requires OfCopy(a, i) || NotOfCopy(a, i)
    requires Sending(Step(t, a), i) && SameCopy(t, Step(t, a), i)
    requires |Step(t, a).copies[i].sent| == |t.copies[i].sent| + taken
    ensures Underway(s, Step(t, a), i, states + [Step(t, a)], actions + [a], limit, left - taken)
  {
    hide Sending, Leads, Step, Enabled;
    LeadsOn(s, states, actions, t, a);
  }

  /** What other threads do between two turns: those of the steps proposed that can be done. */
  method Others(s: State, t: State, i: nat, steps: seq<Action>, ghost states: seq<State>, ghost actions: seq<Action>,
                ghost limit: nat, ghost left: nat)
    returns (u: State, ghost states': seq<State>, ghost actions': seq<Action>)
    requires Underway(s, t, i, states, actions, limit, left)
    ensures Underway(s, u, i, states', actions', limit, left)
    ensures u.copies[i] == t.copies[i] && (t.aborted ==> u.aborted)
    ensures t.copies[i].at.In? ==> InBuffer(u, i) == InBuffer(t, i)
  {
    hide Inv, Step, Enabled, Leads;
    u, states', actions' := t, states, actions;
    for k := 0 to |steps|
      invariant Underway(s, u, i, states', actions', limit, left)
      invariant u.copies[i] == t.copies[i] && (t.aborted ==> u.aborted)
      invariant t.copies[i].at.In? ==> InBuffer(u, i) == InBuffer(t, i)
    {
      var a := steps[k];
      if NotOfCopy(a, i) && Enabled(u, a) {
        OthersMove(u, a, i);
        UnderwayOn(s, u, i, states', actions', limit, left, a, 0);
        u := Step(u, a);
        states', actions' := states' + [u], actions' + [a];
      }
    }
  }

  /** What the next turn starts from: a buffer with octets left unless this is the first turn, or the reason to stop. */
  ghost predicate Turn(s: State, t: State, i: nat, buf: Position, bytesSent: int, refused: bool, rank: nat)
    requires Sending(t, i) && t.copies[i].start <= |t.chain.data| && i < |s.copies|
  {
    && (buf.In? && !t.aborted ==>
          buf == t.copies[i].at && !refused && ((rank == 2 && bytesSent == 0) || (rank == 1 && InBuffer(t, i) > 0)))
    && (buf.Nowhere? && !t.aborted && !refused ==>
          && SentTo(t, i) == |Flat(Own(t, i))|
          && (t.complete && s.copies[i].at.In? ==> t.copies[i].sendComplete))
  }

  /** One pass of an outgoing copy, with room for `limit` octets in the session. The link answers the
      k-th call with `link(k)`: an error if that is negative, and else it takes at most that many.
      After the k-th turn other threads do what of `others(k)` they can. The count of the last call is kept from
      turn to turn, as it is used again when nothing is left to send in a buffer. */
  method SendPass(s: State, i: nat, limit: nat, link: nat -> int, others: nat -> seq<Action>)
    returns (t: State, left: nat, refused: bool, ghost states: seq<State>, ghost actions: seq<Action>)
    requires Sending(s, i)
    ensures Underway(s, t, i, states, actions, limit, left)
    ensures t.copies[i].start <= |t.chain.data|
    ensures !t.aborted && left > 0 && !refused ==> SentTo(t, i) == |Flat(Own(t, i))|
    ensures !t.aborted && left > 0 && !refused && t.complete && s.copies[i].at.In? ==> t.copies[i].sendComplete
    ensures t.aborted ==> t.copies[i].sendComplete
    ensures refused ==> exists k: nat :: link(k) <= 0
  {
    hide Inv, Step, Enabled, Leads, NextIn, Origin, Flat, SentTo, Own;
    t, left, refused := s, limit, false;
    states, actions := [s], [];
    var bytesSent, calls: nat, turn: nat := 0, 0, 0;
    ghost var rank := 2;
    var buf := t.copies[i].at;
    StandsInside(s, i);
    Starts(s, i, limit);
    while !t.aborted && buf.In? && left > 0
      invariant Underway(s, t, i, states, actions, limit, left)
      invariant t.copies[i].start <= |t.chain.data| && Turn(s, t, i, buf, bytesSent, refused, rank)
      invariant refused ==> exists k: nat :: link(k) <= 0
      decreases left, !t.aborted, if buf.In? then rank else 0
    {
      var num := if InBuffer(t, i) < left then InBuffer(t, i) else left;
      if num > 0 {
        bytesSent := if link(calls) < 0 then -1 else if link(calls) < num then link(calls) else num;
        calls := calls + 1;
      }
      if bytesSent < 0 {
        FailsMoves(t, i);
        UnderwayOn(s, t, i, states, actions, limit, left, SendFails(i), 0);
        t := Step(t, SendFails(i));
        states, actions := states + [t], actions + [SendFails(i)];
      } else {
        TransferMoves(t, i, bytesSent);
        UnderwayOn(s, t, i, states, actions, limit, left, Transfer(i, bytesSent), bytesSent);
        t := Step(t, Transfer(i, bytesSent));
        left := left - bytesSent;
        states, actions := states + [t], actions + [Transfer(i, bytesSent)];
        if InBuffer(t, i) == 0 {
          SettleMoves(t, i);
          UnderwayOn(s, t, i, states, actions, limit, left, Settle(i), 0);
          buf := NextIn(t.chain.list, buf.buf);
          t := Step(t, Settle(i));
          states, actions := states + [t], actions + [Settle(i)];
        } else if num > 0 && bytesSent == 0 {
          buf, refused := Nowhere, true;
        }
      }
      rank := 1;
      if buf.In? {
        t, states, actions := Others(s, t, i, others(turn), states, actions, limit, left);
        turn := turn + 1;
      }
      StandsInside(t, i);
    }
    if t.aborted {
      FailsMoves(t, i);
      UnderwayOn(s, t, i, states, actions, limit, left, SendFails(i), 0);
      t := Step(t, SendFails(i));
      states, actions := states + [t], actions + [SendFails(i)];
      StandsInside(t, i);
    }
  }

  lemma Starts(s: State, i: nat, limit: nat)
    requires Sending(s, i)
    ensures Underway(s, s, i, [s], [], limit, limit)
  {
    hide Inv;
  }

  // ---------------------------------------------------------------- receiving

  predicate ByReceiver(a: Action) {
    a.Receive? || a.Push? || a.Finish?
  }

  /** All octets the content has, those of the pending buffer included. */
  function Received(s: State): seq<Octet> {
    Flat(s.chain.data) + s.pending
  }

  /** Only receiving adds octets, and no step loses or reorders any. */
  lemma StepReceives(s: State, a: Action)
    requires Enabled(s, a)
    ensures Received(Step(s, a)) == Received(s) + if a.Receive? then a.octets else []
  {
    hide Flat, Advance, GiveBack, NextIn, Shifted, Noted, Masked, Gaps, CountUpTo, Offset;
    FlatPush(s.chain.data, s.pending, 0);
  }

  /** What the steps of other threads leave to the receiver. */
  lemma OthersLetReceive(s: State, a: Action)
    requires Inv(s) && Enabled(s, a) && !ByReceiver(a)
    ensures var t := Step(s, a);
      && Inv(t) && Received(t) == Received(s) && t.complete == s.complete && (s.aborted ==> t.aborted)
      && |t.pending| <= |s.pending|
  {
    hide *;
    OthersKeepFlags(s, a);
    StepReceives(s, a);
    StepKeepsInv(s, a);
  }

  lemma OthersKeepFlags(s: State, a: Action)
    requires Enabled(s, a) && !ByReceiver(a)
    ensures !a.Receive?
    ensures var t := Step(s, a); t.complete == s.complete && (s.aborted ==> t.aborted) && |t.pending| <= |s.pending|
  {
    hide NextIn, GiveBack, Masked, Offset, Flat, Advance, Gaps, CountUpTo, Shifted, Noted, Settled, Freed, Started;
    if a.Settle? || a.Free? || a.Begin? {
      CopyFlags(s, a);
    }
  }

  lemma CopyFlags(s: State, a: Action)
    requires Enabled(s, a) && (a.Settle? || a.Free? || a.Begin?)
    ensures var t := Step(s, a); t.complete == s.complete && t.aborted == s.aborted && t.pending == s.pending
  {
    hide NextIn, GiveBack, Masked, Offset, Flat, Advance, Shifted, Noted;
  }

  /** Why a pass ends: the message is whole, too many buffers wait, nothing more has come yet, or the message is
      longer than the link allows. */
  datatype Pause = Whole | HeldOff | Drained | Oversize

  /** What holds between turns: what was there and what has come since is all received, in order. */
  ghost predicate Incoming(s: State, t: State, states: seq<State>, actions: seq<Action>,
                           octets: seq<Octet>, got: nat, capacity: nat) {
    && Inv(t) && Leads(s, states, actions, t) && |states| == |actions| + 1 && states[|actions|] == t
    && got <= |octets| && Received(t) == Received(s) + octets[..got]
    && |t.pending| <= capacity && (s.aborted ==> t.aborted)
  }

  lemma IncomingStarts(s: State, octets: seq<Octet>, capacity: nat)
    requires Inv(s) && |s.pending| <= capacity
    ensures Incoming(s, s, [s], [], octets, 0, capacity)
  {
    hide Inv, Flat;
  }

  lemma IncomingOn(s: State, t: State, states: seq<State>, actions: seq<Action>, octets: seq<Octet>, got: nat,
                   capacity: nat, a: Action, n: nat)
    requires Incoming(s, t, states, actions, octets, got, capacity) && got + n <= |octets|
    requires Enabled(t, a) && Inv(Step(t, a)) && (t.aborted ==> Step(t, a).aborted)
    requires Received(Step(t, a)) == Received(t) + octets[got..got + n] && |Step(t, a).pending| <= capacity
    ensures Incoming(s, Step(t, a), states + [Step(t, a)], actions + [a], octets, got + n, capacity)
  {
    hide Inv, Leads, Step, Enabled, Received;
    LeadsOn(s, states, actions, t, a);
    assert (states + [Step(t, a)])[|actions| + 1] == Step(t, a);
    assert octets[..got] + octets[got..got + n] == octets[..got + n];
  }

  lemma PushMoves(s: State, a: Action)
    requires Inv(s) && !s.complete && (a == Finish(false) || a == Finish(true) || (a.Push? && s.pending != []))
    ensures Enabled(s, a)
    ensures var t := Step(s, a);
      && Inv(t) && Received(t) == Received(s) && t.pending == [] && t.copies == s.copies && t.fanout == s.fanout
      && t.complete == a.Finish?
      && (a.Finish? ==> t.aborted == (s.aborted || a.abort))
      && (a.Push? ==> t.aborted == s.aborted)
      && (a == Push(true, true) ==> t.q2.holdoff == (s.q2.holdoff || (!t.q2.off && |t.chain.list| - t.q2.kept >= 64)))
      && t.chain.list == s.chain.list + if s.pending == [] then [] else [|s.chain.data|]
  {
    hide Inv, Flat;
    StepKeepsInv(s, a);
    FlatPush(s.chain.data, s.pending, 0);
  }

  lemma ReceiveMoves(s: State, octets: seq<Octet>)
    requires Inv(s) && !s.complete
    ensures Enabled(s, Receive(octets))
    ensures var t := Step(s, Receive(octets));
      && Inv(t) && Received(t) == Received(s) + octets && t.pending == s.pending + octets
      && t == s.(pending := s.pending + octets)
  {
    hide Inv, Flat;
    StepKeepsInv(s, Receive(octets));
  }

  /** 64 buffers or more wait that are not protected, and Q2 is on. */
  predicate TooMany(s: State) {
    !s.q2.off && |s.chain.list| - s.q2.kept >= 64
  }

  /** In its first `n` steps a pass pushes full buffers only, each with a check, and none that makes too many wait. */
  ghost predicate Orderly(states: seq<State>, actions: seq<Action>, n: nat, bounded: bool, capacity: nat) {
    n <= |actions| < |states| &&
    forall j :: 0 <= j < n ==> OrderlyAt(states[j], actions[j], states[j + 1], bounded, capacity)
  }

  predicate OrderlyAt(s: State, a: Action, t: State, bounded: bool, capacity: nat) {
    && !a.Finish?
    && (a.Push? ==> a == Push(true, bounded) && |s.pending| == capacity && (bounded ==> !TooMany(t)))
  }

  lemma OrderlyOn(states: seq<State>, actions: seq<Action>, bounded: bool, capacity: nat, a: Action, t: State)
    requires Orderly(states, actions, |actions|, bounded, capacity) && |states| == |actions| + 1
    ensures Orderly(states + [t], actions + [a], |actions|, bounded, capacity)
    ensures OrderlyAt(states[|actions|], a, t, bounded, capacity) ==>
      Orderly(states + [t], actions + [a], |actions| + 1, bounded, capacity)
  {
    hide OrderlyAt;
    var ss, aa := states + [t], actions + [a];
    forall j | 0 <= j < |actions| ensures OrderlyAt(ss[j], aa[j], ss[j + 1], bounded, capacity) {
      assert ss[j] == states[j] && ss[j + 1] == states[j + 1] && aa[j] == actions[j];
    }
    assert ss[|actions| + 1] == t && aa[|actions|] == a;
  }

  /** What other threads do between two turns of the receiver. */
  method OthersReceiving(s: State, t: State, steps: seq<Action>, ghost states: seq<State>, ghost actions: seq<Action>,
                         ghost octets: seq<Octet>, ghost got: nat, ghost capacity: nat, ghost bounded: bool)
    returns (u: State, ghost states': seq<State>, ghost actions': seq<Action>)
    requires Incoming(s, t, states, actions, octets, got, capacity) && Orderly(states, actions, |actions|, bounded, capacity)
    ensures Incoming(s, u, states', actions', octets, got, capacity) && Orderly(states', actions', |actions'|, bounded, capacity)
    ensures u.complete == t.complete
  {
    hide Inv, Step, Enabled, Leads, Received;
    u, states', actions' := t, states, actions;
    for k := 0 to |steps|
      invariant Incoming(s, u, states', actions', octets, got, capacity) && Orderly(states', actions', |actions'|, bounded, capacity)
      invariant u.complete == t.complete
    {
      var a := steps[k];
      if !ByReceiver(a) && Enabled(u, a) {
        OthersLetReceive(u, a);
        IncomingOn(s, u, states', actions', octets, got, capacity, a, 0);
        OrderlyOn(states', actions', bounded, capacity, a, Step(u, a));
        u := Step(u, a);
        states', actions' := states' + [u], actions' + [a];
      }
    }
  }

  /** Appends the pending buffer, or what is left of it at the end. */
  method Append(s: State, t: State, a: Action, ghost states: seq<State>, ghost actions: seq<Action>,
                ghost octets: seq<Octet>, ghost got: nat, ghost capacity: nat)
    returns (u: State, ghost states': seq<State>, ghost actions': seq<Action>)
    requires Incoming(s, t, states, actions, octets, got, capacity) && !t.complete
    requires a == Finish(false) || a == Finish(true) || (a.Push? && t.pending != [])
    ensures Incoming(s, u, states', actions', octets, got, capacity)
    ensures u.pending == [] && u.complete == a.Finish? && (a == Finish(true) ==> u.aborted)
    ensures a == Push(true, true) && TooMany(u) ==> u.q2.holdoff
    ensures states' == states + [u] && actions' == actions + [a]
  {
    hide Inv, Step, Enabled, Leads, Received, ShouldBlock, Flat;
    PushMoves(t, a);
    IncomingOn(s, t, states, actions, octets, got, capacity, a, 0);
    u := Step(t, a);
    states', actions' := states + [u], actions + [a];
  }

  /** One read, of at least one octet and at most `chunk`, into the pending buffer. */
  method Read(s: State, t: State, octets: seq<Octet>, got: nat, capacity: nat, ghost bounded: bool, chunk: nat,
              ghost states: seq<State>, ghost actions: seq<Action>)
    returns (u: State, more: nat, ghost states': seq<State>, ghost actions': seq<Action>)
    requires Incoming(s, t, states, actions, octets, got, capacity) && Orderly(states, actions, |actions|, bounded, capacity)
    requires !t.complete && |t.pending| < capacity && got < |octets|
    ensures Incoming(s, u, states', actions', octets, more, capacity)
    ensures Orderly(states', actions', |actions'|, bounded, capacity)
    ensures got < more && !u.complete
  {
    hide Inv, Step, Enabled, Leads, Received, Flat, Orderly;
    var room := capacity - |t.pending|;
    var most := if room < |octets| - got then room else |octets| - got;
    var m := if chunk == 0 then 1 else if chunk < most then chunk else most;
    var a := Receive(octets[got..got + m]);
    ReceiveMoves(t, octets[got..got + m]);
    IncomingOn(s, t, states, actions, octets, got, capacity, a, m);
    OrderlyOn(states, actions, bounded, capacity, a, Step(t, a));
    u, more := Step(t, a), got + m;
    states', actions' := states + [u], actions + [a];
  }

  lemma OrderlyStarts(s: State, bounded: bool, capacity: nat)
    ensures Orderly([s], [], 0, bounded, capacity)
  {
  }

  /** One pass of the receiver over the `octets` a delivery holds; `partial` says that more will come, `cut` that
      the delivery was aborted. The k-th read fails if `chunk(k)` is negative, and else gives between one octet
      and `chunk(k)`, no more than the buffer takes. A message may have `limit` octets in all, or any number if
      that is zero, and has had `before`. Before the k-th turn other threads do what of `others(k)` they can. */
  method ReceivePass(s: State, octets: seq<Octet>, partial: bool, cut: bool, bounded: bool, capacity: nat,
                     limit: nat, before: nat, chunk: nat -> int, others: nat -> seq<Action>)
    returns (t: State, got: nat, why: Pause, ghost states: seq<State>, ghost actions: seq<Action>, ghost n: nat)
    requires Inv(s) && !s.complete && |s.pending| <= capacity && capacity > 0
    ensures Incoming(s, t, states, actions, octets, got, capacity)
    ensures why == Whole <==> t.complete
    ensures why == Whole ==> t.pending == [] && (cut ==> t.aborted)
    ensures why == Whole && !cut && (forall k: nat :: chunk(k) >= 0) ==> !partial && got == |octets|
    ensures why == HeldOff ==> bounded && t.q2.holdoff && (TooMany(t) || (t == s && s.q2.holdoff))
    ensures |states| == |actions| + 1 && n <= |actions| <= n + 1 && Orderly(states, actions, n, bounded, capacity)
    ensures why == Whole ==> n < |actions| && actions[n] == Finish(cut)
    ensures why == HeldOff ==> actions == [] || (n < |actions| && actions[n] == Push(true, true))
    ensures why == Drained && n < |actions| ==> actions[n] == Push(false, bounded) && 0 < |states[n].pending| < capacity
    ensures why == Oversize ==> n == |actions|
    ensures why == Drained ==> t.pending == [] && got == |octets| && partial && !cut
    ensures got > 0 && why != Oversize && limit > 0 ==> before + got <= limit
    ensures why == Oversize ==> limit > 0 && before + got > limit
  {
    hide Inv, Step, Enabled, Leads, Received, Flat, Orderly, TooMany;
    t, got := s, 0;
    states, actions := [s], [];
    IncomingStarts(s, octets, capacity);
    OrderlyStarts(s, bounded, capacity);
    if bounded && !s.q2.off && s.q2.holdoff {
      return t, got, HeldOff, states, actions, 0;
    }
    var failed := false;
    var calls: nat, turn: nat := 0, 0;
    while true
      invariant Incoming(s, t, states, actions, octets, got, capacity) && !t.complete
      invariant Orderly(states, actions, |actions|, bounded, capacity)
      invariant failed ==> cut || exists k: nat :: chunk(k) < 0
      invariant got > 0 && limit > 0 ==> before + got <= limit
      decreases |octets| - got, !failed
    {
      t, states, actions := OthersReceiving(s, t, others(turn), states, actions, octets, got, capacity, bounded);
      turn := turn + 1;
      n := |actions|;
      var wholeAndRead := !partial && !cut && got == |octets|;
      ghost var states0, actions0 := states, actions;
      if wholeAndRead || failed {
        t, states, actions := Append(s, t, Finish(cut), states, actions, octets, got, capacity);
        OrderlyOn(states0, actions0, bounded, capacity, Finish(cut), t);
        return t, got, Whole, states, actions, n;
      }
      if |t.pending| == capacity {
        t, states, actions := Append(s, t, Push(true, bounded), states, actions, octets, got, capacity);
        OrderlyOn(states0, actions0, bounded, capacity, Push(true, bounded), t);
        if TooMany(t) && bounded {
          return t, got, HeldOff, states, actions, n;
        }
        states0, actions0, n := states, actions, |actions|;
      }
      if cut {
        failed := true;
      } else if got == |octets| {
        if t.pending != [] {
          t, states, actions := Append(s, t, Push(false, bounded), states, actions, octets, got, capacity);
          OrderlyOn(states0, actions0, bounded, capacity, Push(false, bounded), t);
        }
        return t, got, Drained, states, actions, n;
      } else {
        if chunk(calls) < 0 {
          failed := true;
        } else {
          t, got, states, actions := Read(s, t, octets, got, capacity, bounded, chunk(calls), states, actions);
          if limit > 0 && before + got > limit {
            return t, got, Oversize, states, actions, |actions|;
          }
        }
        calls := calls + 1;
      }
    }
  }

  // ---------------------------------------------------------------- what came and what was sent

  /** The octets that came in a run. */
  function Came(actions: seq<Action>): seq<Octet> {
    if actions == [] then []
    else
      var last := actions[|actions| - 1];
      Came(actions[..|actions| - 1]) + if last.Receive? then last.octets else []
  }

  lemma {:induction false} RunReceives(states: seq<State>, actions: seq<Action>, k: nat)
    requires Run(states, actions) && k < |states|
    ensures Received(states[k]) == Came(actions[..k])
    decreases k
  {
    if k > 0 {
      hide Enabled, Step, Received;
      RunReceives(states, actions, k - 1);
      StepReceives(states[k - 1], actions[k - 1]);
      assert actions[..k][..k - 1] == actions[..k - 1];
    }
  }

  lemma EarlyIsRun(states: seq<State>, actions: seq<Action>)
    requires EarlyRun(states, actions)
    ensures Run(states, actions) && |states| == |actions| + 1
  {
    hide Step, Enabled, Initial;
  }

  lemma CompleteIsWhole(s: State, i: nat)
    requires Inv(s) && i < |s.copies| && s.copies[i].sendComplete && !s.aborted
    ensures s.pending == []
  {
    assert CopyOk(s.chain, s.copies[i], s.complete, s.aborted);
  }

  /** In every interleaving in which all copies are added before any buffer is freed, each copy has sent a prefix of
      what came, less the section it skipped; all of it when it completes unaborted. */
  lemma CopiesSendWhatCame(states: seq<State>, actions: seq<Action>, k: nat, i: nat)
    requires EarlyRun(states, actions) && k < |states| && i < |states[k].copies|
    ensures var s := states[k]; var c := s.copies[i]; var came := Came(actions[..k]);
      && c.skip <= |came|
      && c.sent <= came[c.skip..]
      && (c.sendComplete && !s.aborted ==> c.sent == came[c.skip..])
  {
    hide Inv, EarlyRun, Run, Flat, Came;
    EarlyIsRun(states, actions);
    EarlyCopiesSendPrefixes(states, actions, k, i);
    RunReceives(states, actions, k);
    RunKeepsInv(states, actions, k);
    var s := states[k];
    var c, stream, came := s.copies[i], Flat(s.chain.data), Came(actions[..k]);
    if c.sendComplete && !s.aborted {
      CompleteIsWhole(s, i);
    }
    assert came == stream + s.pending;
    assert came[c.skip..] == stream[c.skip..] + s.pending;
  }
}
