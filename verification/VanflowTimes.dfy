/** When records are flushed, when they go, and what a flush sends, over whole runs. */
module VanflowTimes {
  import opened Basics
  import opened Options
  import opened Vanflow

  // ---------------------------------------------------------------- when

  /** A handler that schedules the record leaves it waiting: to the next tick if it has never waited before; to the
      turn of its slot if it has; as long as before if it waits; and for 25 ticks once a transport flow has ended. */
  lemma ScheduledFor(s: State, a: Action)
    requires Inv(s) && Enabled(s, a) && (a.SetString? || a.IncInt? || a.Post? || a.Refresh? || a.Start? || a.End?)
    ensures a.id in Step(s, a).records && Waits(Step(s, a).records[a.id])
    ensures var n := TicksLeft(Step(s, a), Step(s, a).records[a.id]);
      && (a.Start? ==> n == 1)
      && (!a.Start? ==>
            var r := s.records[a.id];
            n == if a.End? && r.kind == TransportFlow && !r.co then 25
                 else if Waits(r) then TicksLeft(s, r)
                 else if r.defaultSlot.None? then 1
                 else TurnOf(r.defaultSlot.value, s.current))
  {
    StepWritesOne(s, a);
    var t := Step(s, a);
    TurnNow(s.current);
    TicksAre(t, t.records[a.id]);
    if a.Start? {
      PostedIs(Record(a.kind, a.co, false, 0, [], None, None, 0, map[], true), s.tick, s.current);
      hide Inv, Step, Posted, TicksLeft, TurnOf;
    } else {
      assert TimesOk(s.records[a.id], s.tick);
      TicksAre(s, s.records[a.id]);
      hide Inv, Step, TimesOk, TicksLeft, TurnOf;
      if a.End? {
        EndPosted(s.records[a.id], a.now, s.tick, s.current);
        hide IntRecord, Posted;
      } else {
        OwnPosted(s, a);
        hide OwnRecord;
      }
    }
  }

  /** The ticks until a slot has its turn: the slots have it one after the other, five of them. */
  function TurnOf(slot: nat, current: nat): int {
    (slot - current) % 5 + 1
  }

  lemma TurnNow(current: nat)
    ensures TurnOf(current, current) == 1
  {
  }

  lemma TicksAre(s: State, r: Record)
    ensures Waits(r) ==>
      TicksLeft(s, r) == if r.deleteTick > 0 then r.deleteTick - s.tick else TurnOf(r.slot.value, s.current)
  {
  }

  /** Scheduling a record, whatever its attributes. */
  lemma PostedIs(r: Record, tick: nat, current: nat)
    requires TimesOk(r, tick) || (TimesOk(r.(ended := false), tick) && r.deleteTick == 0)
    ensures var p := Posted(r, tick, current);
      && (IsDeferred(r) && r.deleteTick == 0 ==> p.deleteTick == tick + 25)
      && (!IsDeferred(r) ==> p.deleteTick == 0 && p.slot.Some? && (r.slot.Some? ==> p.slot == r.slot))
      && (!IsDeferred(r) && r.slot.None? ==>
            p.slot == p.defaultSlot == Some(if r.defaultSlot.Some? then r.defaultSlot.value else current))
      && (r.deleteTick > 0 ==> p == r)
  {
  }

  lemma EndPosted(r: Record, now: Value, tick: nat, current: nat)
    requires TimesOk(r, tick) && !r.ended
    ensures var t := if r.kind == Log || r.co then r else IntRecord(r, END_TIME, now, tick, current);
      var p := Posted(t.(ended := true), tick, current);
      && (r.kind == TransportFlow && !r.co ==> p.deleteTick == tick + 25)
      && (!(r.kind == TransportFlow && !r.co) ==>
            && p.deleteTick == 0 && p.slot.Some? && (r.slot.Some? ==> p.slot == r.slot)
            && (r.slot.None? ==> p.slot == Some(if r.defaultSlot.Some? then r.defaultSlot.value else current)))
  {
    hide Put, Lookup, Sorted;
  }

  lemma OwnPosted(s: State, a: Action)
    requires Enabled(s, a) && (a.SetString? || a.IncInt? || a.Post? || a.Refresh?) && TimesOk(s.records[a.id], s.tick)
    ensures var r, p := s.records[a.id], OwnRecord(s, a);
      && (Waits(r) ==> p.slot == r.slot && p.deleteTick == r.deleteTick)
      && (!Waits(r) ==> p.deleteTick == 0 && p.slot == Some(if r.defaultSlot.Some? then r.defaultSlot.value else s.current))
  {
    hide Put, Lookup, Incremented;
  }

  /** A record is there until the tick that flushes it after its end. */
  lemma GoesWhenFlushed(s: State, a: Action, id: RecordId)
    requires Inv(s) && Enabled(s, a)
    ensures id in Step(s, a).records <==>
      (id in s.records || (a.Start? && a.id == id)) && !(a.Tick? && LastTick(s, id) && s.records[id].ended)
    ensures a.Tick? && LastTick(s, id) && !s.records[id].ended ==> !Waits(Step(s, a).records[id])
  {
    if a.Tick? {
      TickRecord(s, a.reach, id);
      LastTickIsDue(s, id);
      hide Inv, AfterTick, IsDue, LastTick;
    } else {
      StepWritesOne(s, a);
      hide Inv, Step, OwnRecord, LastTick;
    }
  }

  // ---------------------------------------------------------------- how often

  /** A record waits in its own slot. */
  predicate InOwnSlot(r: Record) {
    r.slot.Some? ==> r.slot == r.defaultSlot
  }

  lemma PostedSlot(r: Record, tick: nat, current: nat)
    ensures var p := Posted(r, tick, current);
      (InOwnSlot(r) ==> InOwnSlot(p)) && (r.defaultSlot.Some? ==> p.defaultSlot == r.defaultSlot)
  {
  }

  lemma OwnSlot(s: State, a: Action)
    requires Enabled(s, a) && !a.Tick? && (!a.Start? ==> InOwnSlot(s.records[a.id]))
    ensures InOwnSlot(OwnRecord(s, a))
    ensures !a.Start? && s.records[a.id].defaultSlot.Some? ==> OwnRecord(s, a).defaultSlot == s.records[a.id].defaultSlot
  {
    hide Posted, Put, Lookup, Incremented;
    var r := if a.Start? then Record(a.kind, a.co, false, 0, [], None, None, 0, map[], true) else s.records[a.id];
    match a
    case Start(_, _, _) => PostedSlot(r, s.tick, s.current);
    case Post(_) => PostedSlot(r, s.tick, s.current);
    case Refresh(_) => PostedSlot(Restarted(r), s.tick, s.current);
    case SetString(_, ty, value) => PostedSlot(WithAttribute(r, ty, value), s.tick, s.current);
    case SetInt(_, ty, value) => PostedSlot(WithAttribute(r, ty, value), s.tick, s.current);
    case IncInt(_, ty, amount) => PostedSlot(WithAttribute(r, ty, Incremented(r, ty, amount)), s.tick, s.current);
    case End(_, now) =>
      PostedSlot(WithAttribute(r, END_TIME, now), s.tick, s.current);
      var t := if r.kind == Log || r.co then r else IntRecord(r, END_TIME, now, s.tick, s.current);
      PostedSlot(t.(ended := true), s.tick, s.current);
  }

  /** A record's slot is given to it once. */
  lemma SlotStep(s: State, a: Action, id: RecordId)
    requires Inv(s) && Enabled(s, a) && (id in s.records ==> InOwnSlot(s.records[id])) && id in Step(s, a).records
    ensures InOwnSlot(Step(s, a).records[id])
    ensures id in s.records && s.records[id].defaultSlot.Some? ==>
      Step(s, a).records[id].defaultSlot == s.records[id].defaultSlot
  {
    if a.Tick? {
      TickRecord(s, a.reach, id);
      hide Inv, AfterTick, IsDue;
    } else {
      StepWritesOne(s, a);
      hide Inv, Step, OwnRecord;
      if a.id == id {
        OwnSlot(s, a);
      }
    }
  }

  lemma {:induction false} RunSlots(states: seq<State>, actions: seq<Action>, k: nat, id: RecordId)
    requires Run(states, actions) && k < |states|
    ensures id in states[k].records ==> InOwnSlot(states[k].records[id])
    ensures states[k].current == states[k].tick % 5
    decreases k
  {
    if k > 0 {
      hide Enabled, Step, Inv, InOwnSlot;
      RunSlots(states, actions, k - 1, id);
      RunKeepsInv(states, actions, k - 1);
      var s, a := states[k - 1], actions[k - 1];
      if id in states[k].records {
        SlotStep(s, a, id);
      }
      ClockStep(s, a);
    }
  }

  lemma ClockStep(s: State, a: Action)
    requires Enabled(s, a) && s.current == s.tick % 5
    ensures Step(s, a).current == Step(s, a).tick % 5
  {
    if a.Tick? {
      TickStepIs(s, a.reach);
      TickClock(s, a.reach);
      hide Step, AfterTick;
    } else {
      StepWritesOne(s, a);
      hide Step;
    }
  }

  /** The slot that was given to a record. */
  function SlotOf(s: State, id: RecordId): Option<nat> {
    if id in s.records then s.records[id].defaultSlot else None
  }

  lemma SlotNext(states: seq<State>, actions: seq<Action>, k: nat, id: RecordId)
    requires Run(states, actions) && k + 1 < |states| && SlotOf(states[k], id).Some? && id in states[k + 1].records
    ensures SlotOf(states[k + 1], id) == SlotOf(states[k], id)
  {
    hide Enabled, Step, Inv, InOwnSlot;
    RunKeepsInv(states, actions, k);
    RunSlots(states, actions, k, id);
    SlotStep(states[k], actions[k], id);
  }

  /** The record is there all the time. */
  ghost predicate There(states: seq<State>, j: nat, k: nat, id: RecordId) {
    k < |states| && forall i :: j <= i <= k ==> id in states[i].records
  }

  lemma ThereFront(states: seq<State>, j: nat, k: nat, id: RecordId)
    requires There(states, j, k, id) && j < k
    ensures There(states, j, k - 1, id) && id in states[k].records
  {
  }

  lemma {:induction false} SlotStays(states: seq<State>, actions: seq<Action>, j: nat, k: nat, id: RecordId)
    requires Run(states, actions) && j <= k < |states| && There(states, j, k, id) && SlotOf(states[j], id).Some?
    ensures SlotOf(states[k], id) == SlotOf(states[j], id)
    decreases k
  {
    hide *;
    if j < k {
      ThereFront(states, j, k, id);
      SlotStays(states, actions, j, k - 1, id);
      SlotNext(states, actions, k - 1, id);
    }
  }

  /** The flush at a tick, of a record that is not deferred. */
  predicate FlushedAt(s: State, a: Action, id: RecordId) {
    a.Tick? && LastTick(s, id) && s.records[id].deleteTick == 0
  }

  /** In every run, two flushes of one record are five ticks apart, or a multiple of that. */
  lemma FlushesOnItsTurn(states: seq<State>, actions: seq<Action>, j: nat, k: nat, id: RecordId)
    requires Run(states, actions) && j < k < |actions| && There(states, j, k, id)
    requires FlushedAt(states[j], actions[j], id) && FlushedAt(states[k], actions[k], id)
    ensures (states[k].tick - states[j].tick) % 5 == 0
  {
    RunSlots(states, actions, j, id);
    RunSlots(states, actions, k, id);
    RunKeepsInv(states, actions, j);
    RunKeepsInv(states, actions, k);
    LastTickIsDue(states[j], id);
    LastTickIsDue(states[k], id);
    assert states[j].records[id].slot == Some(states[j].current);
    assert states[k].records[id].slot == Some(states[k].current);
    hide Inv, Step, Enabled, LastTick, There, Run;
    SlotStays(states, actions, j, k, id);
  }

  // ---------------------------------------------------------------- what

  /** The attributes written to a record since its start or its last flush, and whether it was never refreshed. */
  datatype Changes = Changes(written: set<AttributeType>, exact: bool)

  function NextChanges(s: State, a: Action, id: RecordId, c: Changes): Changes {
    if a.Tick? then (if LastTick(s, id) then c.(written := {}) else c)
    else if a.id != id then c
    else match a
      case Start(_, _, _) => Changes({}, true)
      case SetString(_, ty, _) => c.(written := c.written + {ty})
      case SetInt(_, ty, _) => c.(written := c.written + {ty})
      case IncInt(_, ty, _) => c.(written := c.written + {ty})
      case End(_, _) =>
        if id in s.records && s.records[id].kind != Log && !s.records[id].co then c.(written := c.written + {END_TIME}) else c
      case Post(_) => c
      case Refresh(_) => c.(exact := false)
  }

  ghost function ChangesOf(states: seq<State>, actions: seq<Action>, id: RecordId, k: nat): Changes
    requires |states| == |actions| + 1 && k <= |actions|
  {
    if k == 0 then Changes({}, true)
    else NextChanges(states[k - 1], actions[k - 1], id, ChangesOf(states, actions, id, k - 1))
  }

  /** What was written is stamped with the record's ordinal or a later one; nothing else is, unless there was a
      refresh. */
  ghost predicate Stamped(r: Record, c: Changes) {
    && Sorted(r.attrs)
    && (forall t :: t in c.written ==> exists x :: x in r.attrs && x.ty == t && x.ordinal >= r.ordinal)
    && (c.exact ==> forall x :: x in r.attrs ==> x.ordinal <= r.ordinal && (x.ordinal == r.ordinal ==> x.ty in c.written))
  }

  lemma PostedStamped(r: Record, tick: nat, current: nat, c: Changes)
    ensures Stamped(Posted(r, tick, current), c) <==> Stamped(r, c)
  {
  }

  lemma WrittenStamped(r: Record, ty: AttributeType, value: Value, c: Changes)
    requires Stamped(r, c)
    ensures Stamped(WithAttribute(r, ty, value), c.(written := c.written + {ty}))
  {
    var a := Attribute(ty, r.ordinal, value);
    PutSets(r.attrs, a);
    hide Put, Sorted;
    var t := WithAttribute(r, ty, value);
    forall y | y in c.written + {ty} ensures exists x :: x in t.attrs && x.ty == y && x.ordinal >= t.ordinal {
      if y == ty {
        assert a in t.attrs;
      } else {
        var x :| x in r.attrs && x.ty == y && x.ordinal >= r.ordinal;
        assert x in t.attrs;
      }
    }
  }

  lemma OthersStamped(r: Record, c: Changes)
    requires Stamped(r, c)
    ensures Stamped(r.(ended := true), c)
    ensures forall usable :: Stamped(Flushed(r, usable), c.(written := {}))
    ensures Stamped(Restarted(r), c.(exact := false))
  {
    hide Sorted, Since;
  }

  lemma IntStamped(r: Record, ty: AttributeType, value: Value, tick: nat, current: nat, c: Changes)
    requires Stamped(r, c)
    ensures Stamped(IntRecord(r, ty, value, tick, current), c.(written := c.written + {ty}))
  {
    hide Stamped, Posted, WithAttribute;
    WrittenStamped(r, ty, value, c);
    PostedStamped(WithAttribute(r, ty, value), tick, current, c.(written := c.written + {ty}));
  }

  lemma OwnStamped(s: State, a: Action, c: Changes)
    requires Enabled(s, a) && !a.Tick? && (a.id in s.records ==> Stamped(s.records[a.id], c))
    ensures Stamped(OwnRecord(s, a), NextChanges(s, a, a.id, c))
  {
    var d := NextChanges(s, a, a.id, c);
    if a.Start? {
      var r := Record(a.kind, a.co, false, 0, [], None, None, 0, map[], true);
      assert Stamped(r, d);
      PostedStamped(r, s.tick, s.current, d);
      return;
    }
    hide Stamped, Posted, WithAttribute, IntRecord, Restarted, Incremented;
    var r := s.records[a.id];
    OthersStamped(r, c);
    match a
    case Post(_) => PostedStamped(r, s.tick, s.current, d);
    case Refresh(_) => PostedStamped(Restarted(r), s.tick, s.current, d);
    case SetInt(_, ty, value) => IntStamped(r, ty, value, s.tick, s.current, c);
    case SetString(_, ty, value) =>
      WrittenStamped(r, ty, value, c);
      PostedStamped(WithAttribute(r, ty, value), s.tick, s.current, d);
    case IncInt(_, ty, amount) =>
      WrittenStamped(r, ty, Incremented(r, ty, amount), c);
      PostedStamped(WithAttribute(r, ty, Incremented(r, ty, amount)), s.tick, s.current, d);
    case End(_, now) =>
      IntStamped(r, END_TIME, now, s.tick, s.current, c);
      var t := if r.kind == Log || r.co then r else IntRecord(r, END_TIME, now, s.tick, s.current);
      OthersStamped(t, d);
      PostedStamped(t.(ended := true), s.tick, s.current, d);
  }

  lemma StepStamped(s: State, a: Action, id: RecordId, c: Changes)
    requires Inv(s) && Enabled(s, a) && (id in s.records ==> Stamped(s.records[id], c)) && id in Step(s, a).records
    ensures Stamped(Step(s, a).records[id], NextChanges(s, a, id, c))
  {
    if a.Tick? {
      TickRecord(s, a.reach, id);
      LastTickIsDue(s, id);
      hide Inv, AfterTick, IsDue, LastTick, Stamped, Flushed;
      OthersStamped(s.records[id], c);
    } else {
      StepWritesOne(s, a);
      hide Inv, Step, OwnRecord, Stamped;
      if a.id == id {
        OwnStamped(s, a, c);
      }
    }
  }

  lemma {:induction false} RunStamped(states: seq<State>, actions: seq<Action>, k: nat, id: RecordId)
    requires Run(states, actions) && k < |states|
    ensures id in states[k].records ==> Stamped(states[k].records[id], ChangesOf(states, actions, id, k))
    decreases k
  {
    if k > 0 {
      hide Enabled, Step, Inv, Stamped, NextChanges;
      RunStamped(states, actions, k - 1, id);
      RunKeepsInv(states, actions, k - 1);
      if id in states[k].records {
        StepStamped(states[k - 1], actions[k - 1], id, ChangesOf(states, actions, id, k - 1));
      }
    }
  }

  /** In every run, the next flush of a record sends every attribute written to it since its last flush, and no other
      if it was never refreshed. */
  lemma SendsWhatChanged(states: seq<State>, actions: seq<Action>, k: nat, id: RecordId)
    requires Run(states, actions) && k < |states| && id in states[k].records
    ensures var r := states[k].records[id]; var c := ChangesOf(states, actions, id, k);
      && c.written <= Since(r.attrs, r.ordinal).Keys
      && (c.exact ==> Since(r.attrs, r.ordinal).Keys == c.written)
  {
    RunStamped(states, actions, k, id);
    var r, c := states[k].records[id], ChangesOf(states, actions, id, k);
    SinceShows(r.attrs, r.ordinal);
    hide Since, Sorted, Step, Enabled, ChangesOf;
    forall t | t in c.written ensures t in Since(r.attrs, r.ordinal) {
      var x :| x in r.attrs && x.ty == t && x.ordinal >= r.ordinal;
    }
    if c.exact {
      forall t | t in Since(r.attrs, r.ordinal) ensures t in c.written {
        var x :| x in r.attrs && x.ty == t;
      }
    }
  }

  /** After a refresh an attribute is sent with each flush until the record's ordinal, which starts again from zero, has
      passed its stamp. */
  lemma RefreshResends(r: Record, x: Attribute, flushes: nat)
    requires Sorted(r.attrs) && x in r.attrs
    ensures x.ty in Since(Restarted(r).attrs, Restarted(r).ordinal + flushes) <==> flushes <= x.ordinal
  {
    SinceShows(r.attrs, flushes);
  }
}
