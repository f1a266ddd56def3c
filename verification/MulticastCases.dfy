/** Runs of the shared content in which the code does less than one might expect. */
module MulticastCases {
  import opened Basics
  import opened Buffers
  import opened Multicast
  import opened Passes

  const START := State(Chain([], [], [], []), [], 0, false, false, Q2(false, false, 0), Parser(Nowhere, false, 0), [])

  /** One more step of a run, to a known state. */
  lemma Then(states: seq<State>, actions: seq<Action>, s: State, a: Action, t: State)
    requires Leads(START, states, actions, s) && Enabled(s, a) && Step(s, a) == t
    ensures Leads(START, states + [t], actions + [a], t)
  {
    LeadsOn(START, states, actions, s, a);
  }

  lemma StartLeads()
    ensures Leads(START, [START], [], START)
  {
  }

  lemma IsRun(states: seq<State>, actions: seq<Action>, t: State)
    requires Leads(START, states, actions, t)
    ensures Run(states, actions) && states[|actions|] == t
  {
    hide Step, Enabled;
  }

  // ---------------------------------------------------------------- a copy added over a gap

  const THREE: seq<Buffer> := [[10], [11], [12]]

  function ThreeBuffers(list: seq<nat>, count: seq<int>): Chain {
    Chain(THREE, list, count, [1, 0, 0])
  }

  function Shared(chain: Chain, freed: nat, copies: seq<Copy>): State {
    State(chain, [], |copies|, true, false, Q2(false, false, 1), Parser(In(0), false, freed), copies)
  }

  function Sender(at: Position, off: nat, missing: set<nat>, sent: seq<Octet>): Copy {
    Copy(true, true, at, off, 0, 0, missing, sent, at == Nowhere)
  }

  /** Three buffers come, and the first turns out to hold a header. */
  lemma HeaderParsed() returns (states: seq<State>, actions: seq<Action>)
    ensures Leads(START, states, actions, Shared(ThreeBuffers([0, 1, 2], [1, 0, 0]), 0, []))
  {
    states, actions := [START], [];
    var s := START;
    var data := THREE;
    for k := 0 to 3
      invariant Leads(START, states, actions, s)
      invariant s == START.(chain := Chain(data[..k], seq(k, i => i), seq(k, i => 0), seq(k, i => 0)))
    {
      var t := s.(pending := data[k]);
      Then(states, actions, s, Receive(data[k]), t);
      states, actions := states + [t], actions + [Receive(data[k])];
      var u := START.(chain := Chain(data[..k + 1], seq(k + 1, i => i), seq(k + 1, i => 0), seq(k + 1, i => 0)));
      assert Step(t, Push(false, false)) == u;
      Then(states, actions, t, Push(false, false), u);
      states, actions, s := states + [u], actions + [Push(false, false)], u;
    }
    var t := s.(complete := true);
    Then(states, actions, s, Finish(false), t);
    states, actions := states + [t], actions + [Finish(false)];
    var u := t.(parser := Parser(In(0), false, 0));
    Then(states, actions, t, StartParse, u);
    states, actions := states + [u], actions + [StartParse];
    var v := Shared(ThreeBuffers([0, 1, 2], [1, 0, 0]), 0, []);
    HeaderStep(u);
    Then(states, actions, u, Protect(0, 0, 0), v);
    states, actions := states + [v], actions + [Protect(0, 0, 0)];
  }

  lemma HeaderStep(s: State)
    requires s.chain.data == THREE && s.chain.list == seq(3, i => i)
    requires s.chain.count == seq(3, i => 0) && s.chain.extra == seq(3, i => 0)
    requires s == State(s.chain, [], 0, true, false, Q2(false, false, 0), Parser(In(0), false, 0), [])
    ensures Enabled(s, Protect(0, 0, 0))
    ensures Step(s, Protect(0, 0, 0)) == Shared(ThreeBuffers([0, 1, 2], [1, 0, 0]), 0, [])
  {
    assert s.chain.list == [0, 1, 2] && s.chain.list[1..] == [1, 2];
    assert Shifted(s.chain.count, 0, 1, 1) == [1, 0, 0];
    assert Noted(s.chain.extra, 0, 1) == [1, 0, 0];
  }

  lemma ListFacts()
    ensures NextIn([0, 1, 2], 0) == In(1) && NextIn([0, 1, 2], 1) == In(2)
    ensures NextIn([0, 2], 0) == In(2) && NextIn([0, 2], 2) == Nowhere
  {
    assert [0, 1, 2][1..] == [1, 2] && [0, 2][1..] == [2];
  }

  lemma ReleaseFacts()
    ensures Released([0, 1, 2], [2, 1, 1], 0, 1) == [0, 1, 2] && Released([0, 1, 2], [1, 1, 1], 1, 2) == [0, 2]
    ensures Released([0, 2], [2, 1, 2], 0, 1) == [0, 2] && Released([0, 2], [1, 1, 2], 2, 3) == [0, 2]
  {
    assert [0, 1, 2][1..] == [1, 2] && [1, 2][1..] == [2] && [2][1..] == [] && [0, 2][1..] == [2];
  }

  /** A first copy sends two buffers; the second is freed. */
  lemma FirstCopyStarts(states0: seq<State>, actions0: seq<Action>) returns (states: seq<State>, actions: seq<Action>)
    requires Leads(START, states0, actions0, Shared(ThreeBuffers([0, 1, 2], [1, 0, 0]), 0, []))
    ensures Leads(START, states, actions, Shared(ThreeBuffers([0, 1, 2], [2, 1, 1]), 0, [Sender(In(0), 1, {}, [10])]))
  {
    hide Step, Enabled, Leads, Released, NextIn;
    states, actions := states0, actions0;
    var s := Shared(ThreeBuffers([0, 1, 2], [1, 0, 0]), 0, []);
    var t := Shared(ThreeBuffers([0, 1, 2], [2, 1, 1]), 0, [Copy(true, false, In(0), 0, 0, 0, {}, [], false)]);
    assert Gaps(s.chain, 0) == {};
    AddStep(s, {}, [2, 1, 1]);
    Then(states, actions, s, AddFanout, t);
    states, actions := states + [t], actions + [AddFanout];
    s := Shared(ThreeBuffers([0, 1, 2], [2, 1, 1]), 0, [Sender(In(0), 0, {}, [])]);
    BeginStep(t, 0, s);
    Then(states, actions, t, Begin(0, 0), s);
    states, actions := states + [s], actions + [Begin(0, 0)];
    t := Shared(ThreeBuffers([0, 1, 2], [2, 1, 1]), 0, [Sender(In(0), 1, {}, [10])]);
    TransferStep(s, 0, [10]);
    Then(states, actions, s, Transfer(0, 1), t);
    states, actions := states + [t], actions + [Transfer(0, 1)];
  }

  lemma FirstCopySends(states0: seq<State>, actions0: seq<Action>) returns (states: seq<State>, actions: seq<Action>)
    requires Leads(START, states0, actions0, Shared(ThreeBuffers([0, 1, 2], [1, 0, 0]), 0, []))
    ensures Leads(START, states, actions, Shared(ThreeBuffers([0, 2], [1, 0, 1]), 1, [Sender(In(2), 0, {}, [10, 11])]))
  {
    hide Step, Enabled, Leads, Released, NextIn;
    ListFacts();
    ReleaseFacts();
    states, actions := FirstCopyStarts(states0, actions0);
    var t := Shared(ThreeBuffers([0, 1, 2], [2, 1, 1]), 0, [Sender(In(0), 1, {}, [10])]);
    var s := Shared(ThreeBuffers([0, 1, 2], [1, 1, 1]), 0, [Sender(In(1), 0, {}, [10])]);
    SettleStep(t, 0, 0, In(1), [0, 1, 2], [1, 1, 1]);
    Then(states, actions, t, Settle(0), s);
    states, actions := states + [s], actions + [Settle(0)];
    t := Shared(ThreeBuffers([0, 1, 2], [1, 1, 1]), 0, [Sender(In(1), 1, {}, [10, 11])]);
    TransferStep(s, 0, [10, 11]);
    Then(states, actions, s, Transfer(0, 1), t);
    states, actions := states + [t], actions + [Transfer(0, 1)];
    s := Shared(ThreeBuffers([0, 2], [1, 0, 1]), 1, [Sender(In(2), 0, {}, [10, 11])]);
    SettleStep(t, 0, 1, In(2), [0, 2], [1, 0, 1]);
    Then(states, actions, t, Settle(0), s);
    states, actions := states + [s], actions + [Settle(0)];
  }

  lemma AddStep(s: State, missing: set<nat>, count: seq<int>)
    requires s.chain.list != [] && s.chain.list[0] == 0 && Gaps(s.chain, 0) == missing
    requires |count| == |s.chain.count| == |s.chain.data|
    requires forall k :: 0 <= k < |count| ==> count[k] == s.chain.count[k] + 1
    ensures Enabled(s, AddFanout)
    ensures Step(s, AddFanout) ==
      s.(chain := s.chain.(count := count), fanout := s.fanout + 1,
         copies := s.copies + [Copy(true, false, In(0), 0, 0, 0, missing, [], false)])
  {
    assert Shifted(s.chain.count, 0, |s.chain.data|, 1) == count;
  }

  lemma TransferStep(s: State, i: nat, sent: seq<Octet>)
    requires Active(s, i) && s.copies[i].started && s.copies[i].at.In? && !s.aborted
    requires s.copies[i].at.buf < |s.chain.data| && s.copies[i].off == 0 && |s.chain.data[s.copies[i].at.buf]| == 1
    requires sent == s.copies[i].sent + s.chain.data[s.copies[i].at.buf]
    ensures Enabled(s, Transfer(i, 1))
    ensures Step(s, Transfer(i, 1)) == s.(copies := s.copies[i := s.copies[i].(off := 1, sent := sent)])
  {
    assert s.chain.data[s.copies[i].at.buf][0..1] == s.chain.data[s.copies[i].at.buf];
  }

  lemma BeginStep(s: State, i: nat, t: State)
    requires Active(s, i) && !s.copies[i].started && !s.aborted && s.chain.list != [] && s.chain.list[0] == 0
    requires |s.chain.data| == |s.chain.extra| == 3
    requires t == s.(copies := s.copies[i := s.copies[i].(started := true, at := In(0), off := 0, skip := 0)])
    ensures Enabled(s, Begin(i, 0)) && Step(s, Begin(i, 0)) == t
  {
    var own := Masked(s.chain.data, s.copies[i].missing);
    OffsetInside(own, 0);
    assert Noted(s.chain.extra, 0, 0) == s.chain.extra;
  }

  lemma SettleStep(s: State, i: nat, b: nat, next: Position, list: seq<nat>, count: seq<int>)
    requires Active(s, i) && s.copies[i].started && s.copies[i].at == In(b)
    requires b < |s.chain.data| == |s.chain.count| && s.copies[i].off == |s.chain.data[b]|
    requires NextIn(s.chain.list, b) == next && (next.In? || s.complete)
    requires Released(s.chain.list, s.chain.count, b, b + 1) == list
    requires count == s.chain.count[b := s.chain.count[b] - 1] && !s.q2.holdoff
    ensures Enabled(s, Settle(i))
    ensures Step(s, Settle(i)) ==
      s.(chain := s.chain.(list := list, count := count),
         parser := s.parser.(freed := s.parser.freed + if |list| < |s.chain.list| then 1 else 0),
         copies := s.copies[i := s.copies[i].(at := next, off := 0, sendComplete := s.complete && next == Nowhere)])
  {
    assert Shifted(s.chain.count, b, b + 1, -1) == count;
  }

  lemma LateCopyStarts() returns (states: seq<State>, actions: seq<Action>)
    ensures Leads(START, states, actions,
      Shared(ThreeBuffers([0, 2], [2, 1, 2]), 1, [Sender(In(2), 0, {}, [10, 11]), Sender(In(0), 1, {1}, [10])]))
  {
    hide Step, Enabled, Leads, Released, NextIn;
    states, actions := HeaderParsed();
    states, actions := FirstCopySends(states, actions);
    var first := Sender(In(2), 0, {}, [10, 11]);
    var s := Shared(ThreeBuffers([0, 2], [1, 0, 1]), 1, [first]);
    var t := Shared(ThreeBuffers([0, 2], [2, 1, 2]), 1, [first, Copy(true, false, In(0), 0, 0, 0, {1}, [], false)]);
    assert Gaps(s.chain, 0) == {1};
    AddStep(s, {1}, [2, 1, 2]);
    Then(states, actions, s, AddFanout, t);
    states, actions := states + [t], actions + [AddFanout];
    s := Shared(ThreeBuffers([0, 2], [2, 1, 2]), 1, [first, Sender(In(0), 0, {1}, [])]);
    BeginStep(t, 1, s);
    Then(states, actions, t, Begin(1, 0), s);
    states, actions := states + [s], actions + [Begin(1, 0)];
    t := Shared(ThreeBuffers([0, 2], [2, 1, 2]), 1, [first, Sender(In(0), 1, {1}, [10])]);
    TransferStep(s, 1, [10]);
    Then(states, actions, s, Transfer(1, 1), t);
    states, actions := states + [t], actions + [Transfer(1, 1)];
  }

  /** A copy added then goes from the first buffer to the third, completes unaborted, and has not sent the second. */
  lemma LateCopySkips() returns (states: seq<State>, actions: seq<Action>)
    ensures Run(states, actions)
    ensures var s := states[|actions|];
      && Flat(s.chain.data) == [10, 11, 12] && |s.copies| == 2 && !s.aborted
      && s.copies[1].sendComplete && s.copies[1].start == 0 && s.copies[1].skip == 0 && s.copies[1].sent == [10, 12]
  {
    hide Step, Enabled, Leads, Released, NextIn, Run, Flat;
    ListFacts();
    ReleaseFacts();
    states, actions := LateCopyStarts();
    var first := Sender(In(2), 0, {}, [10, 11]);
    var t := Shared(ThreeBuffers([0, 2], [2, 1, 2]), 1, [first, Sender(In(0), 1, {1}, [10])]);
    var s := Shared(ThreeBuffers([0, 2], [1, 1, 2]), 1, [first, Sender(In(2), 0, {1}, [10])]);
    SettleStep(t, 1, 0, In(2), [0, 2], [1, 1, 2]);
    Then(states, actions, t, Settle(1), s);
    states, actions := states + [s], actions + [Settle(1)];
    t := Shared(ThreeBuffers([0, 2], [1, 1, 2]), 1, [first, Sender(In(2), 1, {1}, [10, 12])]);
    TransferStep(s, 1, [10, 12]);
    Then(states, actions, s, Transfer(1, 1), t);
    states, actions := states + [t], actions + [Transfer(1, 1)];
    s := Shared(ThreeBuffers([0, 2], [1, 1, 1]), 1, [first, Sender(Nowhere, 0, {1}, [10, 12])]);
    SettleStep(t, 1, 2, Nowhere, [0, 2], [1, 1, 1]);
    Then(states, actions, t, Settle(1), s);
    states, actions := states + [s], actions + [Settle(1)];
    IsRun(states, actions, s);
    StreamOfThree();
  }

  lemma StreamOfThree()
    ensures Flat(THREE) == [10, 11, 12]
  {
    var a: seq<Buffer> := [[10]];
    var b: seq<Buffer> := [[10], [11]];
    var c := THREE;
    assert c[..2] == b && b[..1] == a && a[..0] == [];
    assert Flat(a) == [10] && Flat(b) == Flat(a) + [11] && Flat(c) == Flat(b) + [12];
  }

  // ---------------------------------------------------------------- the parser's guard

  /** The parser stops in the first buffer for want of octets; the one copy there is is freed, and the buffer with it.
      More octets come. No buffer was freed by sending, so the guard lets the parser go on in a buffer that is gone. */
  lemma GuardMisses() returns (states: seq<State>, actions: seq<Action>)
    ensures Run(states, actions)
    ensures var s := states[|actions|]; s.parser.freed == 0 && s.chain.list != [] && ParserLost(s)
  {
    hide Leads, Run, Step, Enabled;
    StartLeads();
    states, actions := [START], [];
    var s := START;
    var t := s.(pending := [10]);
    ReceiveStep(s, [10]);
    Then(states, actions, s, Receive([10]), t);
    states, actions := states + [t], actions + [Receive([10])];
    s := START.(chain := Chain([[10]], [0], [0], [0]));
    PushStep(t, false);
    Then(states, actions, t, Push(false, false), s);
    states, actions := states + [s], actions + [Push(false, false)];
    t := s.(parser := Parser(In(0), false, 0));
    ParseStep(s);
    Then(states, actions, s, StartParse, t);
    states, actions := states + [t], actions + [StartParse];
    var copy := Copy(true, false, In(0), 0, 0, 0, {}, [], false);
    s := t.(chain := Chain([[10]], [0], [1], [0]), fanout := 1, copies := [copy]);
    assert Gaps(t.chain, 0) == {};
    AddStep(t, {}, [1]);
    Then(states, actions, t, AddFanout, s);
    states, actions := states + [s], actions + [AddFanout];
    t := s.(chain := Chain([[10]], [], [0], [0]), fanout := 0, copies := [copy.(live := false)]);
    FreeStep(s);
    Then(states, actions, s, Free(0), t);
    states, actions := states + [t], actions + [Free(0)];
    s := t.(pending := [11]);
    ReceiveStep(t, [11]);
    Then(states, actions, t, Receive([11]), s);
    states, actions := states + [s], actions + [Receive([11])];
    t := t.(chain := Chain([[10], [11]], [1], [0, 0], [0, 0]));
    PushStep(s, false);
    Then(states, actions, s, Push(false, false), t);
    states, actions := states + [t], actions + [Push(false, false)];
    IsRun(states, actions, t);
  }

  lemma ReceiveStep(s: State, octets: seq<Octet>)
    requires !s.complete && s.pending == []
    ensures Enabled(s, Receive(octets)) && Step(s, Receive(octets)) == s.(pending := octets)
  {
    assert s.pending + octets == octets;
  }

  lemma PushStep(s: State, bounded: bool)
    requires !s.complete && s.pending != [] && s.fanout == 0
    ensures Enabled(s, Push(false, bounded))
    ensures Step(s, Push(false, bounded)) == s.(chain := Pushed(s.chain, s.pending, 0), pending := [])
  {
  }

  lemma ParseStep(s: State)
    requires s.parser == Parser(Nowhere, false, 0) && s.chain.list != []
    ensures Enabled(s, StartParse) && Step(s, StartParse) == s.(parser := Parser(In(s.chain.list[0]), false, 0))
  {
  }

  lemma FreeStep(s: State)
    requires s.chain == Chain([[10]], [0], [1], [0]) && s.fanout == 1 && !s.q2.holdoff
    requires |s.copies| == 1 && s.copies[0].live && s.copies[0].at == In(0)
    ensures Enabled(s, Free(0))
    ensures Step(s, Free(0)) ==
      s.(chain := Chain([[10]], [], [0], [0]), fanout := 0, copies := s.copies[0 := s.copies[0].(live := false)])
  {
    assert Shifted(s.chain.count, 0, 1, -1) == [0] && s.chain.list[1..] == [];
  }

  // ---------------------------------------------------------------- many short transfers

  /** Nothing is protected or held off, and the receiver has kept to the holdoff. */
  ghost predicate Waiting(states: seq<State>, actions: seq<Action>, s: State, n: nat) {
    && Leads(START, states, actions, s) && |states| == |actions| + 1 && KeepsHoldoff(states, actions)
    && |s.chain.list| == n && s.q2 == Q2(false, false, 0) && s.fanout == 0 && !s.complete && s.pending == []
    && Unchecked(actions) == n
  }

  /** Transfers of one octet each, with a pause behind each: any number of buffers wait and receiving is not held off. */
  lemma {:induction false} ShortTransfers(n: nat) returns (states: seq<State>, actions: seq<Action>)
    ensures Run(states, actions) && KeepsHoldoff(states, actions)
    ensures var s := states[|actions|]; |s.chain.list| == n && s.q2 == Q2(false, false, 0)
  {
    var s;
    states, actions, s := Transfers(n);
    IsRun(states, actions, s);
  }

  lemma {:induction false} Transfers(n: nat) returns (states: seq<State>, actions: seq<Action>, s: State)
    ensures Waiting(states, actions, s, n)
  {
    if n == 0 {
      StartLeads();
      states, actions, s := [START], [], START;
    } else {
      states, actions, s := Transfers(n - 1);
      states, actions, s := OneTransfer(states, actions, s, n - 1);
    }
  }

  lemma OneTransfer(states0: seq<State>, actions0: seq<Action>, s0: State, n: nat)
    returns (states: seq<State>, actions: seq<Action>, s: State)
    requires Waiting(states0, actions0, s0, n)
    ensures Waiting(states, actions, s, n + 1)
  {
    hide Leads, Step, Enabled, KeepsHoldoff, Unchecked;
    ReceiveStep(s0, [7]);
    var t := s0.(pending := [7]);
    OneMore(states0, actions0, s0, Receive([7]), t);
    states, actions := states0 + [t], actions0 + [Receive([7])];
    PushStep(t, true);
    s := t.(chain := Pushed(t.chain, t.pending, 0), pending := []);
    OneMore(states, actions, t, Push(false, true), s);
    states, actions := states + [s], actions + [Push(false, true)];
  }

  lemma OneMore(states: seq<State>, actions: seq<Action>, s: State, a: Action, t: State)
    requires Leads(START, states, actions, s) && |states| == |actions| + 1 && KeepsHoldoff(states, actions)
    requires Enabled(s, a) && Step(s, a) == t && (a.Receive? || a == Push(false, true)) && !s.q2.holdoff
    ensures Leads(START, states + [t], actions + [a], t) && KeepsHoldoff(states + [t], actions + [a])
    ensures Unchecked(actions + [a]) == Unchecked(actions) + if a.Push? then 1 else 0
  {
    Then(states, actions, s, a, t);
    assert (actions + [a])[..|actions|] == actions;
    assert states[|actions|] == s;
    hide Step, Enabled, Leads;
  }
}
