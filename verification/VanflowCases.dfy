/** A run in which an update never reaches the collector, and how a later write makes up for it. */
module VanflowCases {
  import opened Options
  import opened Vanflow

  const ALL_REACHED := Reach(true, true, true, true)
  const NONE_REACHED := Reach(false, false, false, false)

  const START := State(map[], map[], 0, 0)

  /** A series of steps from the start, and what it did to record 1. */
  ghost predicate Comes(states: seq<State>, actions: seq<Action>, t: State, h: History) {
    && Run(states, actions) && states[0] == START && states[|actions|] == t
    && HistoryOf(states, actions, 1, |actions|) == h
  }

  lemma {:induction false} SameHistory(states: seq<State>, actions: seq<Action>, t: State, a: Action, k: nat)
    requires |states| == |actions| + 1 && k <= |actions|
    ensures HistoryOf(states + [t], actions + [a], 1, k) == HistoryOf(states, actions, 1, k)
    decreases k
  {
    if k > 0 {
      SameHistory(states, actions, t, a, k - 1);
    }
  }

  lemma RunOn(states: seq<State>, actions: seq<Action>, a: Action)
    requires Run(states, actions) && Enabled(states[|actions|], a)
    ensures Run(states + [Step(states[|actions|], a)], actions + [a])
  {
    hide Step, Enabled, Initial;
  }

  lemma HistoryOn(states: seq<State>, actions: seq<Action>, t: State, a: Action)
    requires |states| == |actions| + 1
    ensures HistoryOf(states + [t], actions + [a], 1, |actions| + 1) ==
      NextHistory(states[|actions|], a, 1, HistoryOf(states, actions, 1, |actions|))
  {
    hide NextHistory;
    SameHistory(states, actions, t, a, |actions|);
  }

  lemma Then(states: seq<State>, actions: seq<Action>, s: State, h: History, a: Action)
    requires Comes(states, actions, s, h) && Enabled(s, a)
    ensures Comes(states + [Step(s, a)], actions + [a], Step(s, a), NextHistory(s, a, 1, h))
    ensures Inv(s)
  {
    hide Run, HistoryOf, Step, Enabled, NextHistory, Inv;
    ComesIs(states, actions, s, h);
    RunKeepsInv(states, actions, |actions|);
    RunOn(states, actions, a);
    HistoryOn(states, actions, Step(s, a), a);
  }

  lemma ComesIs(states: seq<State>, actions: seq<Action>, s: State, h: History)
    requires Comes(states, actions, s, h)
    ensures |states| == |actions| + 1
  {
    hide Step, Enabled, HistoryOf;
  }

  /** A tick that is not the record's, and one that is. */
  lemma TickIs(s: State, reach: Reach, h: History)
    requires Inv(s) && 1 in s.records && !s.records[1].ended && s.records[1].deleteTick == 0
    ensures var t := Step(s, Tick(reach)); var r := s.records[1]; var g := NextHistory(s, Tick(reach), 1, h);
      && 1 in t.records && t.current == (s.current + 1) % FLUSH_SLOT_COUNT
      && (r.slot == Some(s.current) ==> t.records[1] == Flushed(r, Reaches(reach, r)) && g == Sent(h, r, reach))
      && (r.slot != Some(s.current) ==> t.records[1] == r && g == h)
  {
    TickRecord(s, reach, 1);
    LastTickIsDue(s, 1);
    TickClock(s, reach);
    TickStepIs(s, reach);
    hide Inv, Step, AfterTick, LastTick, Flushed, Sent, Reaches;
  }

  /** What a step does to record 1 when it is the record written. */
  lemma WriteIs(s: State, a: Action)
    requires Enabled(s, a) && !a.Tick? && a.id == 1
    ensures var t := Step(s, a); 1 in t.records && t.records[1] == OwnRecord(s, a)
    ensures Step(s, a).tick == s.tick && Step(s, a).current == s.current
  {
    StepWritesOne(s, a);
    hide Step, OwnRecord;
  }

  /** The record with one attribute, of type 7. */
  function One(ordinal: nat, attribute: Attribute, slot: Option<nat>, seen: map<AttributeType, Value>, followed: bool): Record {
    Record(Other, false, false, ordinal, [attribute], slot, Some(0), 0, seen, followed)
  }

  /** A record is started, its attribute 7 is set to 5, and the flush is not seen. */
  lemma Unseen() returns (states: seq<State>, actions: seq<Action>, s: State)
    ensures Comes(states, actions, s, History(map[7 := 5], map[], {7}, false))
    ensures s.current == 1 && 1 in s.records && s.records[1] == One(1, Attribute(7, 0, 5), None, map[], false)
  {
    hide Comes, Step, Run, Inv;
    states, actions, s := [START], [], START;
    var h := History(map[], map[], {}, true);
    assert Comes(states, actions, s, h) by { Begins(); }
    var a := Start(1, Other, false);
    Then(states, actions, s, h, a);
    WriteIs(s, a);
    s := Step(s, a);
    states, actions := states + [s], actions + [a];
    a := SetString(1, 7, 5);
    Then(states, actions, s, h, a);
    WriteIs(s, a);
    h := NextHistory(s, a, 1, h);
    s := Step(s, a);
    states, actions := states + [s], actions + [a];
    assert s.records[1] == One(0, Attribute(7, 0, 5), Some(0), map[], true);
    assert h == History(map[7 := 5], map[], {}, true);
    a := Tick(NONE_REACHED);
    Then(states, actions, s, h, a);
    TickIs(s, NONE_REACHED, h);
    LastTimeOne(s.records[1], Attribute(7, 0, 5));
    h := NextHistory(s, a, 1, h);
    s := Step(s, a);
    states, actions := states + [s], actions + [a];
    assert h.lost == {7};
  }

  lemma Begins()
    ensures Comes([START], [], START, History(map[], map[], {}, true))
  {
  }

  lemma SinceOne(a: Attribute, ordinal: nat)
    ensures Since([a], ordinal) == if a.ordinal >= ordinal then map[a.ty := a.value] else map[]
  {
    assert [a][..0] == [];
  }

  lemma LastTimeOne(r: Record, a: Attribute)
    requires r.attrs == [a] && a.ordinal == r.ordinal
    ensures LastTime(r) == {a.ty}
  {
    SinceOne(a, r.ordinal);
    SinceOne(a, r.ordinal + 1);
  }

  /** Five ticks that reach the collector flush the record once. */
  lemma FiveTicks(states0: seq<State>, actions0: seq<Action>, s0: State, h: History, r: Record, attribute: Attribute)
    returns (states: seq<State>, actions: seq<Action>, s: State)
    requires Comes(states0, actions0, s0, h) && s0.current == 1 && 1 in s0.records && s0.records[1] == r
    requires r == One(1, attribute, Some(0), r.seen, r.followed)
    ensures Comes(states, actions, s, h.(sent := h.sent + Since([attribute], 1)))
    ensures 1 in s.records && s.records[1] == Flushed(r, true)
  {
    hide Comes, Step, Run, Inv, NextHistory, Since;
    states, actions, s := states0, actions0, s0;
    for k := 0 to 4
      invariant Comes(states, actions, s, h) && 1 in s.records && s.records[1] == r && s.current == (k + 1) % 5
    {
      Then(states, actions, s, h, Tick(ALL_REACHED));
      TickIs(s, ALL_REACHED, h);
      s := Step(s, Tick(ALL_REACHED));
      states, actions := states + [s], actions + [Tick(ALL_REACHED)];
    }
    Then(states, actions, s, h, Tick(ALL_REACHED));
    TickIs(s, ALL_REACHED, h);
    s := Step(s, Tick(ALL_REACHED));
    states, actions := states + [s], actions + [Tick(ALL_REACHED)];
  }

  /** The record is flushed again, all of it reaches the collector, and the attribute is still not there. */
  lemma LostUpdate() returns (states: seq<State>, actions: seq<Action>)
    ensures Run(states, actions) && 1 in states[|actions|].records && !Waits(states[|actions|].records[1])
    ensures HistoryOf(states, actions, 1, |actions|) == History(map[7 := 5], map[], {7}, false)
  {
    var s;
    states, actions, s := Unseen();
    var h := History(map[7 := 5], map[], {7}, false);
    var a := Post(1);
    Then(states, actions, s, h, a);
    WriteIs(s, a);
    s := Step(s, a);
    states, actions := states + [s], actions + [a];
    var attribute := Attribute(7, 0, 5);
    states, actions, s := FiveTicks(states, actions, s, h, One(1, attribute, Some(0), map[], false), attribute);
    SinceOne(attribute, 1);
    assert h.sent + Since([attribute], 1) == h.sent;
  }

  /** If the attribute is written in between, the next flush makes up for the one that was not seen. */
  lemma RewrittenUpdate() returns (states: seq<State>, actions: seq<Action>)
    ensures Run(states, actions) && 1 in states[|actions|].records && !Waits(states[|actions|].records[1])
    ensures HistoryOf(states, actions, 1, |actions|) == History(map[7 := 6], map[7 := 6], {}, false)
  {
    var s;
    states, actions, s := Unseen();
    var h := History(map[7 := 5], map[], {7}, false);
    var a := SetString(1, 7, 6);
    Then(states, actions, s, h, a);
    WriteIs(s, a);
    s := Step(s, a);
    states, actions := states + [s], actions + [a];
    h := History(map[7 := 6], map[], {}, false);
    var attribute := Attribute(7, 1, 6);
    states, actions, s := FiveTicks(states, actions, s, h, One(1, attribute, Some(0), map[], false), attribute);
    SinceOne(attribute, 1);
    assert h.sent + Since([attribute], 1) == map[7 := 6];
  }
}
