/** Publishing of flow records: attribute changes are gathered and sent as maps of what has changed since the
    last time, from one of five slots that are flushed in turn, or after a delay for
    transport flows that have ended. All handlers run on one thread. */
module Vanflow {
  import opened Basics
  import opened Options

  type RecordId = nat
  type AttributeType = nat
  type Value = nat

  const FLUSH_SLOT_COUNT := 5
  const DEFERRED_DELETION_TICKS := 25
  const WORD64 := 0x1_0000_0000_0000_0000
  const END_TIME: AttributeType := 4

  // ---------------------------------------------------------------- attribute lists

  datatype Attribute = Attribute(ty: AttributeType, ordinal: nat, value: Value)

  /** Attributes are kept in the order of their types, each at most once. */
  ghost predicate Sorted(attrs: seq<Attribute>) {
    forall i, j :: 0 <= i < j < |attrs| ==> attrs[i].ty < attrs[j].ty
  }

  /** The list with the attribute set: overwritten where it is, or inserted in order. */
  function Put(attrs: seq<Attribute>, a: Attribute): seq<Attribute> {
    if attrs == [] then [a]
    else
      var last := attrs[|attrs| - 1];
      if last.ty == a.ty then attrs[..|attrs| - 1] + [a]
      else if last.ty < a.ty then attrs + [a]
      else Put(attrs[..|attrs| - 1], a) + [last]
  }

  /** The attributes of an ordinal or later, as the map that is sent. */
  function Since(attrs: seq<Attribute>, ordinal: nat): map<AttributeType, Value> {
    if attrs == [] then map[]
    else
      var last := attrs[|attrs| - 1];
      var rest := Since(attrs[..|attrs| - 1], ordinal);
      if last.ordinal >= ordinal then rest[last.ty := last.value] else rest
  }

  function AllOf(attrs: seq<Attribute>): map<AttributeType, Value> {
    Since(attrs, 0)
  }

  /** A map of these attributes' values, of all of them or of those from an ordinal on. */
  ghost predicate Shows(attrs: seq<Attribute>, ordinal: nat, m: map<AttributeType, Value>) {
    && (forall x :: x in attrs ==> (x.ty in m <==> x.ordinal >= ordinal))
    && (forall x :: x in attrs && x.ordinal >= ordinal ==> m[x.ty] == x.value)
    && (forall t :: t in m ==> exists x :: x in attrs && x.ty == t)
  }

  lemma ShowsOneMore(front: seq<Attribute>, last: Attribute, ordinal: nat, m: map<AttributeType, Value>)
    requires Shows(front, ordinal, m) && forall x :: x in front ==> x.ty < last.ty
    ensures Shows(front + [last], ordinal, if last.ordinal >= ordinal then m[last.ty := last.value] else m)
  {
    var attrs := front + [last];
    var n := if last.ordinal >= ordinal then m[last.ty := last.value] else m;
    assert last in attrs;
    assert last.ty !in m;
    forall t | t in n ensures exists x :: x in attrs && x.ty == t {
      if t != last.ty {
        var x :| x in front && x.ty == t;
        assert x in attrs;
      }
    }
  }

  lemma {:induction false} SinceShows(attrs: seq<Attribute>, ordinal: nat)
    requires Sorted(attrs)
    ensures Shows(attrs, ordinal, Since(attrs, ordinal))
    decreases |attrs|
  {
    if attrs != [] {
      var front, last := attrs[..|attrs| - 1], attrs[|attrs| - 1];
      SinceShows(front, ordinal);
      assert forall x :: x in front ==> x.ty < last.ty;
      hide Shows;
      ShowsOneMore(front, last, ordinal, Since(front, ordinal));
      assert front + [last] == attrs;
    }
  }

  /** Setting an attribute keeps the order and changes that attribute alone. */
  lemma {:induction false} PutSets(attrs: seq<Attribute>, a: Attribute)
    requires Sorted(attrs)
    ensures Sorted(Put(attrs, a))
    ensures forall x :: x in Put(attrs, a) <==> x == a || (x in attrs && x.ty != a.ty)
    decreases |attrs|
  {
    if attrs != [] {
      var n := |attrs| - 1;
      var front, last := attrs[..n], attrs[n];
      assert attrs == front + [last];
      assert forall x :: x in front ==> x.ty < last.ty;
      if last.ty > a.ty {
        PutSets(front, a);
        SnocSorted(Put(front, a), last);
      } else if last.ty == a.ty {
        SnocSorted(front, a);
      } else {
        assert forall x :: x in attrs ==> x.ty < a.ty;
        SnocSorted(attrs, a);
      }
    }
  }

  lemma SnocSorted(attrs: seq<Attribute>, a: Attribute)
    requires Sorted(attrs) && forall x :: x in attrs ==> x.ty < a.ty
    ensures Sorted(attrs + [a])
  {
    var r := attrs + [a];
    forall i, j | 0 <= i < j < |r| ensures r[i].ty < r[j].ty {
      assert r[i] == attrs[i] && attrs[i] in attrs;
    }
  }

  /** The map of the attributes changes in that one place. */
  lemma {:induction false} PutAllOf(attrs: seq<Attribute>, a: Attribute)
    ensures AllOf(Put(attrs, a)) == AllOf(attrs)[a.ty := a.value]
    decreases |attrs|
  {
    var r := Put(attrs, a);
    if attrs == [] {
      assert r[..0] == [];
    } else {
      var n := |attrs| - 1;
      var last := attrs[n];
      if last.ty == a.ty {
        assert r[..n] == attrs[..n];
      } else if last.ty < a.ty {
        assert r[..n + 1] == attrs;
      } else {
        PutAllOf(attrs[..n], a);
        assert r[..|r| - 1] == Put(attrs[..n], a);
      }
    }
  }

  /** The value an attribute has, if any. */
  function Lookup(attrs: seq<Attribute>, ty: AttributeType): Option<Value> {
    if ty in AllOf(attrs) then Some(AllOf(attrs)[ty]) else None
  }

  lemma SameValue(attrs: seq<Attribute>, ty: AttributeType, value: Value)
    requires Lookup(attrs, ty) == Some(value)
    ensures AllOf(attrs)[ty := value] == AllOf(attrs)
  {
    hide AllOf;
  }

  class AttributeList {
    var attrs: seq<Attribute>

    /** Walks back from the end to the attribute, or to the one it goes behind. */
    method Find(ty: AttributeType) returns (at: Option<nat>)
      ensures at.Some? ==> at.value < |attrs| && attrs[at.value].ty <= ty
      ensures forall i :: (if at.Some? then at.value else -1) < i < |attrs| ==> attrs[i].ty > ty
    {
      var i: nat := |attrs|;
      while i > 0
        invariant i <= |attrs|
        invariant forall j :: i <= j < |attrs| ==> attrs[j].ty > ty
      {
        if attrs[i - 1].ty <= ty {
          return Some(i - 1);
        }
        i := i - 1;
      }
      at := None;
    }

    method Set(a: Attribute)
      requires Sorted(attrs)
      modifies this
      ensures attrs == Put(old(attrs), a) && Sorted(attrs)
    {
      hide Put, Sorted;
      var at := Find(a.ty);
      PutSets(attrs, a);
      if at.None? {
        PutAt(attrs, a, 0);
        attrs := [a] + attrs;
      } else if attrs[at.value].ty != a.ty {
        PutAt(attrs, a, at.value + 1);
        attrs := attrs[..at.value + 1] + [a] + attrs[at.value + 1..];
      } else {
        PutOver(attrs, a, at.value);
        attrs := attrs[at.value := a];
      }
    }
  }

  lemma {:induction false} PutAt(attrs: seq<Attribute>, a: Attribute, k: nat)
    requires k <= |attrs| && (k > 0 ==> attrs[k - 1].ty < a.ty)
    requires forall i :: k <= i < |attrs| ==> attrs[i].ty > a.ty
    ensures Put(attrs, a) == attrs[..k] + [a] + attrs[k..]
    decreases |attrs|
  {
    if k < |attrs| {
      var n := |attrs| - 1;
      PutAt(attrs[..n], a, k);
      assert attrs[..n][..k] == attrs[..k] && attrs[..n][k..] + [attrs[n]] == attrs[k..];
    } else {
      assert attrs[..k] == attrs && attrs[k..] == [];
    }
  }

  lemma {:induction false} PutOver(attrs: seq<Attribute>, a: Attribute, k: nat)
    requires k < |attrs| && attrs[k].ty == a.ty
    requires forall i :: k < i < |attrs| ==> attrs[i].ty > a.ty
    ensures Put(attrs, a) == attrs[k := a]
    decreases |attrs|
  {
    var n := |attrs| - 1;
    if k < n {
      PutOver(attrs[..n], a, k);
      assert attrs[k := a] == attrs[..n][k := a] + [attrs[n]];
    } else {
      assert attrs[k := a] == attrs[..n] + [a];
    }
  }

  // ---------------------------------------------------------------- records

  datatype Kind = Flow | TransportFlow | Log | Other

  /** A record: `slot` or `deleteTick` say where it waits to be flushed. The collector has `seen` the maps sent since
      the record's start or last refresh; it is `followed` while none of those was lost. */
  datatype Record = Record(kind: Kind, co: bool, ended: bool, ordinal: nat, attrs: seq<Attribute>,
                           slot: Option<nat>, defaultSlot: Option<nat>, deleteTick: nat,
                           seen: map<AttributeType, Value>, followed: bool)

  predicate Waits(r: Record) {
    r.slot.Some? || r.deleteTick > 0
  }

  /** Whatever is older than the record's ordinal has been seen; a record that does not wait has nothing unseen. */
  ghost predicate RecordOk(r: Record) {
    && Sorted(r.attrs)
    && (r.followed ==> SeenOk(r) && (!Waits(r) ==> r.seen == AllOf(r.attrs)))
  }

  ghost predicate SeenOk(r: Record) {
    && (forall x :: x in r.attrs && x.ordinal < r.ordinal ==> x.ty in r.seen && r.seen[x.ty] == x.value)
    && (forall t :: t in r.seen ==> exists x :: x in r.attrs && x.ty == t)
  }

  /** The attributes of a record after one is set, stamped with the record's ordinal. */
  function WithAttribute(r: Record, ty: AttributeType, value: Value): Record {
    r.(attrs := Put(r.attrs, Attribute(ty, r.ordinal, value)))
  }

  function Flushed(r: Record, usable: bool): Record {
    r.(slot := None, deleteTick := 0, ordinal := r.ordinal + 1,
       seen := if usable then r.seen + Since(r.attrs, r.ordinal) else r.seen,
       followed := r.followed && usable)
  }

  lemma MergeIsAll(attrs: seq<Attribute>, ordinal: nat, seen: map<AttributeType, Value>,
                   sent: map<AttributeType, Value>, all: map<AttributeType, Value>)
    requires Shows(attrs, ordinal, sent) && Shows(attrs, 0, all)
    requires forall x :: x in attrs && x.ordinal < ordinal ==> x.ty in seen && seen[x.ty] == x.value
    requires forall t :: t in seen ==> exists x :: x in attrs && x.ty == t
    ensures seen + sent == all
  {
    var got := seen + sent;
    forall t | t in all ensures t in got && got[t] == all[t] {
      var x :| x in attrs && x.ty == t;
    }
    forall t | t in got ensures t in all {
      var x :| x in attrs && x.ty == t;
    }
  }

  /** A flush brings the collector's copy up to date. */
  lemma FlushIsExact(r: Record)
    requires RecordOk(r) && r.followed
    ensures r.seen + Since(r.attrs, r.ordinal) == AllOf(r.attrs)
  {
    SinceShows(r.attrs, r.ordinal);
    SinceShows(r.attrs, 0);
    hide Shows, Sorted;
    MergeIsAll(r.attrs, r.ordinal, r.seen, Since(r.attrs, r.ordinal), Since(r.attrs, 0));
  }

  lemma FlushKeeps(r: Record, usable: bool)
    requires RecordOk(r)
    ensures RecordOk(Flushed(r, usable))
    ensures usable && r.followed ==> Flushed(r, usable).seen == AllOf(r.attrs)
  {
    if usable && r.followed {
      FlushIsExact(r);
      SinceShows(r.attrs, 0);
      hide Since, Sorted;
      assert SeenOk(Flushed(r, usable));
    }
  }

  /** What has been seen stays right when an attribute is set. */
  lemma SeenStays(r: Record, ty: AttributeType, value: Value)
    requires RecordOk(r) && r.followed
    ensures SeenOk(WithAttribute(r, ty, value))
  {
    hide Put, AllOf;
    var a := Attribute(ty, r.ordinal, value);
    PutSets(r.attrs, a);
    var t := WithAttribute(r, ty, value);
    forall y | y in t.seen ensures exists x :: x in t.attrs && x.ty == y {
      var x :| x in r.attrs && x.ty == y;
      assert (if y == ty then a else x) in t.attrs;
    }
  }

  /** A record that waits takes a new value; one that does not may be given the value it has. */
  lemma SetKeeps(r: Record, ty: AttributeType, value: Value)
    requires RecordOk(r) && (Waits(r) || Lookup(r.attrs, ty) == Some(value))
    ensures RecordOk(WithAttribute(r, ty, value))
  {
    PutSets(r.attrs, Attribute(ty, r.ordinal, value));
    PutAllOf(r.attrs, Attribute(ty, r.ordinal, value));
    if r.followed {
      SeenStays(r, ty, value);
    }
    hide Put, Sorted, SeenOk;
    if r.followed && !Waits(r) {
      hide AllOf;
      assert AllOf(r.attrs)[ty := value] == AllOf(r.attrs) by {
        SameValue(r.attrs, ty, value);
      }
    }
  }

  /** A refresh starts the collector's copy again from nothing: everything is to be sent. */
  function Restarted(r: Record): Record {
    r.(ordinal := 0, seen := map[], followed := true)
  }

  // ---------------------------------------------------------------- where records wait

  datatype Class = FlowList | LogList | OtherList | CoList

  /** A list that records wait on: that of a class for a slot, or that of the deferred ones. */
  datatype Place = InSlot(cls: Class, slot: nat) | Deferred

  datatype State = State(records: map<RecordId, Record>, lists: map<Place, seq<RecordId>>, tick: nat, current: nat)

  /** Which collectors' addresses can be reached. */
  datatype Reach = Reach(flow: bool, log: bool, other: bool, co: bool)

  datatype Action =
    | Start(id: RecordId, kind: Kind, co: bool)
    | SetString(id: RecordId, ty: AttributeType, value: Value)
    | SetInt(id: RecordId, ty: AttributeType, value: Value)
    | IncInt(id: RecordId, ty: AttributeType, amount: Value)
    | End(id: RecordId, now: Value)
    | Post(id: RecordId)
    | Refresh(id: RecordId)
    | Tick(reach: Reach)

  function ListAt(s: State, p: Place): seq<RecordId> {
    if p in s.lists then s.lists[p] else []
  }

  function ClassOf(r: Record): Class {
    if r.co then CoList
    else match r.kind
      case Flow => FlowList
      case TransportFlow => FlowList
      case Log => LogList
      case Other => OtherList
  }

  function Where(r: Record): Option<Place> {
    if r.deleteTick > 0 then Some(Deferred)
    else if r.slot.Some? then Some(InSlot(ClassOf(r), r.slot.value))
    else None
  }

  /** The last update of a transport flow is put off. */
  predicate IsDeferred(r: Record) {
    r.ended && r.kind == TransportFlow && !r.co
  }

  /** The record after it is scheduled. */
  function Posted(r: Record, tick: nat, current: nat): Record {
    if IsDeferred(r) then
      r.(slot := None, deleteTick := if r.deleteTick == 0 then tick + DEFERRED_DELETION_TICKS else r.deleteTick)
    else if r.slot.None? then
      var slot := if r.defaultSlot.None? then current else r.defaultSlot.value;
      r.(slot := Some(slot), defaultSlot := Some(slot))
    else r
  }

  /** Moves the record from the list it was on to the one it belongs on. */
  function Relisted(s: State, id: RecordId, was: Option<Place>, to: Option<Place>): map<Place, seq<RecordId>> {
    if was == to then s.lists
    else
      var lists := if was.Some? then s.lists[was.value := Without(ListAt(s, was.value), id)] else s.lists;
      if to.Some? then
        lists[to.value := (if to.value in lists then lists[to.value] else []) + [id]]
      else lists
  }

  /** Schedules a record that has the fields `r` now. */
  function Schedule(s: State, id: RecordId, r: Record): State {
    var p := Posted(r, s.tick, s.current);
    s.(records := s.records[id := p], lists := Relisted(s, id, Where(r), Where(p)))
  }

  predicate Enabled(s: State, a: Action) {
    match a
    case Start(id, _, _) => id !in s.records
    case SetString(id, _, _) => id in s.records
    case SetInt(id, _, _) => id in s.records
    case IncInt(id, _, _) => id in s.records
    case End(id, _) => id in s.records && !s.records[id].ended
    case Post(id) => id in s.records
    case Refresh(id) => id in s.records
    case Tick(_) => true
  }

  /** How many at the front of the deferred list are due. */
  function DueCount(list: seq<RecordId>, records: map<RecordId, Record>, now: nat): (n: nat)
    ensures n <= |list|
  {
    if list == [] || list[0] !in records || records[list[0]].deleteTick > now then 0
    else 1 + DueCount(list[1..], records, now)
  }

  /** The records a tick flushes. */
  function Due(s: State): seq<RecordId> {
    ListAt(s, InSlot(OtherList, s.current)) + ListAt(s, InSlot(FlowList, s.current)) +
    ListAt(s, InSlot(LogList, s.current)) + ListAt(s, InSlot(CoList, s.current)) +
    ListAt(s, Deferred)[..DueCount(ListAt(s, Deferred), s.records, s.tick + 1)]
  }

  predicate Reaches(reach: Reach, r: Record) {
    match ClassOf(r)
    case FlowList => reach.flow
    case LogList => reach.log
    case OtherList => reach.other
    case CoList => reach.co
  }

  /** What is left of a list when the slot is flushed and the front of the deferred list goes. */
  function LeftOn(p: Place, list: seq<RecordId>, records: map<RecordId, Record>, now: nat, current: nat): seq<RecordId> {
    match p
    case InSlot(_, k) => if k == current then [] else list
    case Deferred => list[DueCount(list, records, now)..]
  }

  function RecordsLeft(records: map<RecordId, Record>, due: seq<RecordId>, reach: Reach): map<RecordId, Record> {
    map id | id in records && !(id in due && records[id].ended) ::
      if id in due then Flushed(records[id], Reaches(reach, records[id])) else records[id]
  }

  function AfterTick(s: State, reach: Reach): State {
    State(RecordsLeft(s.records, Due(s), reach),
          map p | p in s.lists :: LeftOn(p, s.lists[p], s.records, s.tick + 1, s.current),
          s.tick + 1, (s.current + 1) % FLUSH_SLOT_COUNT)
  }

  function Incremented(r: Record, ty: AttributeType, amount: Value): Value {
    match Lookup(r.attrs, ty)
    case Some(v) => (v + amount) % WORD64
    case None => amount
  }

  /** A number is only scheduled when it changes. */
  function DoSetInt(s: State, id: RecordId, ty: AttributeType, value: Value): State
    requires id in s.records
  {
    var r := s.records[id];
    if Lookup(r.attrs, ty) == Some(value) then s.(records := s.records[id := WithAttribute(r, ty, value)])
    else Schedule(s, id, WithAttribute(r, ty, value))
  }

  function Step(s: State, a: Action): State
    requires Enabled(s, a)
  {
    match a
    case Start(id, kind, co) => Schedule(s, id, Record(kind, co, false, 0, [], None, None, 0, map[], true))
    case SetString(id, ty, value) => Schedule(s, id, WithAttribute(s.records[id], ty, value))
    case SetInt(id, ty, value) => DoSetInt(s, id, ty, value)
    case IncInt(id, ty, amount) => Schedule(s, id, WithAttribute(s.records[id], ty, Incremented(s.records[id], ty, amount)))
    case End(id, now) =>
      var r := s.records[id];
      var t := if r.kind == Log || r.co then s else DoSetInt(s, id, END_TIME, now);
      if id in t.records then Schedule(t, id, t.records[id].(ended := true)) else t
    case Post(id) => Schedule(s, id, s.records[id])
    case Refresh(id) => Schedule(s, id, Restarted(s.records[id]))
    case Tick(reach) => AfterTick(s, reach)
  }

  // ---------------------------------------------------------------- every record on its list

  ghost predicate PlacesOk(s: State) {
    && (forall p, id :: id in ListAt(s, p) <==> id in s.records && Where(s.records[id]) == Some(p))
    && (forall p :: Distinct(ListAt(s, p)))
  }

  /** What holds of one record's scheduling fields. */
  predicate TimesOk(r: Record, tick: nat) {
    && (r.slot.Some? ==> r.slot.value < FLUSH_SLOT_COUNT && !IsDeferred(r))
    && (r.defaultSlot.Some? ==> r.defaultSlot.value < FLUSH_SLOT_COUNT)
    && (r.deleteTick > 0 ==> tick < r.deleteTick <= tick + DEFERRED_DELETION_TICKS && IsDeferred(r))
    && (r.ended ==> Waits(r))
  }

  ghost predicate InOrder(list: seq<RecordId>, records: map<RecordId, Record>) {
    && (forall i :: 0 <= i < |list| ==> list[i] in records)
    && (forall i, j :: 0 <= i < j < |list| ==> records[list[i]].deleteTick <= records[list[j]].deleteTick)
  }

  ghost predicate Inv(s: State) {
    && s.current < FLUSH_SLOT_COUNT
    && PlacesOk(s)
    && InOrder(ListAt(s, Deferred), s.records)
    && (forall id :: id in s.records ==> RecordOk(s.records[id]) && TimesOk(s.records[id], s.tick))
  }

  /** One list loses the record and another gets it; all others stay. */
  lemma RelistedIs(s: State, id: RecordId, was: Option<Place>, to: Option<Place>, q: Place)
    requires was != to
    ensures var t := s.(lists := Relisted(s, id, was, to));
      ListAt(t, q) ==
        if to == Some(q) then ListAt(s, q) + [id]
        else if was == Some(q) then Without(ListAt(s, q), id)
        else ListAt(s, q)
  {
  }

  /** The place `q` before and after the record moves. */
  lemma PlaceAfter(s: State, t: State, id: RecordId, was: Option<Place>, to: Option<Place>, q: Place)
    requires t.lists == Relisted(s, id, was, to)
    requires Distinct(ListAt(s, q)) && (id in ListAt(s, q) <==> was == Some(q))
    ensures Distinct(ListAt(t, q))
    ensures forall x :: x in ListAt(t, q) <==> if x == id then to == Some(q) else x in ListAt(s, q)
  {
    if was != to {
      RelistedIs(s, id, was, to, q);
      if to == Some(q) {
        SnocDistinct(ListAt(s, q), id);
      }
    }
  }

  lemma SchedulePlaces(s: State, id: RecordId, r: Record)
    requires PlacesOk(s) && Where(r) == (if id in s.records then Where(s.records[id]) else None)
    ensures PlacesOk(Schedule(s, id, r))
  {
    var t := Schedule(s, id, r);
    var was, to := Where(r), Where(Posted(r, s.tick, s.current));
    hide Where, Posted, Relisted, Distinct, ListAt;
    forall q
      ensures Distinct(ListAt(t, q))
      ensures forall x :: x in ListAt(t, q) <==> x in t.records && Where(t.records[x]) == Some(q)
    {
      PlaceAfter(s, t, id, was, to, q);
    }
  }

  lemma PostedTimes(r: Record, tick: nat, current: nat)
    requires current < FLUSH_SLOT_COUNT
    requires TimesOk(r.(ended := false), tick) || TimesOk(r, tick)
    requires r.deleteTick > 0 ==> TimesOk(r, tick)
    ensures TimesOk(Posted(r, tick, current), tick) && Waits(Posted(r, tick, current))
    ensures Where(r) == Some(Deferred) ==> Posted(r, tick, current) == r
  {
  }

  lemma PostedRecord(r: Record, tick: nat, current: nat)
    requires Sorted(r.attrs) && (r.followed ==>
      && (forall x :: x in r.attrs && x.ordinal < r.ordinal ==> x.ty in r.seen && r.seen[x.ty] == x.value)
      && (forall t :: t in r.seen ==> exists x :: x in r.attrs && x.ty == t))
    requires Waits(Posted(r, tick, current))
    ensures RecordOk(Posted(r, tick, current))
  {
  }

  /** The deferred list stays in the order of its ticks. */
  lemma ScheduleOrder(s: State, id: RecordId, r: Record)
    requires Inv(s) && Where(r) == (if id in s.records then Where(s.records[id]) else None)
    requires Where(r) == Some(Deferred) ==> Posted(r, s.tick, s.current) == r && r.deleteTick == s.records[id].deleteTick
    ensures InOrder(ListAt(Schedule(s, id, r), Deferred), Schedule(s, id, r).records)
  {
    var t := Schedule(s, id, r);
    var was, to := Where(r), Where(Posted(r, s.tick, s.current));
    var list := ListAt(s, Deferred);
    assert forall i :: 0 <= i < |list| ==> list[i] in s.records && Where(s.records[list[i]]) == Some(Deferred);
    if was == to {
      assert t.lists == s.lists;
    } else {
      RelistedIs(s, id, was, to, Deferred);
      assert ListAt(t, Deferred) == ListAt(s.(lists := Relisted(s, id, was, to)), Deferred);
    }
  }

  lemma ScheduleKeeps(s: State, id: RecordId, r: Record)
    requires Inv(s)
    requires Where(r) == (if id in s.records then Where(s.records[id]) else None)
    requires id in s.records ==> r.deleteTick == s.records[id].deleteTick
    requires TimesOk(r.(ended := false), s.tick) || TimesOk(r, s.tick)
    requires r.deleteTick > 0 ==> TimesOk(r, s.tick)
    requires RecordOk(Posted(r, s.tick, s.current))
    ensures Inv(Schedule(s, id, r))
  {
    PostedTimes(r, s.tick, s.current);
    SchedulePlaces(s, id, r);
    ScheduleOrder(s, id, r);
    hide PlacesOk, RecordOk, TimesOk, InOrder, Posted, Where, Relisted;
  }

  lemma AttributeKeeps(s: State, id: RecordId, ty: AttributeType, value: Value)
    requires Inv(s) && id in s.records
    ensures Inv(Schedule(s, id, WithAttribute(s.records[id], ty, value)))
  {
    var r := s.records[id];
    var t := WithAttribute(r, ty, value);
    PutSets(r.attrs, Attribute(ty, r.ordinal, value));
    if r.followed {
      SeenStays(r, ty, value);
    }
    PostedTimes(t, s.tick, s.current);
    PostedRecord(t, s.tick, s.current);
    hide PlacesOk, RecordOk, InOrder, Put;
    ScheduleKeeps(s, id, t);
  }

  lemma SetIntKeeps(s: State, id: RecordId, ty: AttributeType, value: Value)
    requires Inv(s) && id in s.records
    ensures Inv(DoSetInt(s, id, ty, value))
    ensures id in DoSetInt(s, id, ty, value).records
    ensures DoSetInt(s, id, ty, value).records[id].ended == s.records[id].ended
  {
    var r := s.records[id];
    if Lookup(r.attrs, ty) == Some(value) {
      SetKeeps(r, ty, value);
      SamePlaces(s, id, WithAttribute(r, ty, value));
    } else {
      AttributeKeeps(s, id, ty, value);
      hide Inv, Relisted;
    }
  }

  /** A record that changes in what is not about scheduling stays where it is. */
  lemma SamePlaces(s: State, id: RecordId, r: Record)
    requires Inv(s) && id in s.records && RecordOk(r) && TimesOk(r, s.tick)
    requires Where(r) == Where(s.records[id]) && r.deleteTick == s.records[id].deleteTick
    ensures Inv(s.(records := s.records[id := r]))
  {
    hide RecordOk, TimesOk, Where, Distinct;
    var t := s.(records := s.records[id := r]);
    assert forall p :: ListAt(t, p) == ListAt(s, p);
  }

  lemma StartKeeps(s: State, id: RecordId, kind: Kind, co: bool)
    requires Inv(s) && id !in s.records
    ensures Inv(Step(s, Start(id, kind, co)))
  {
    var r := Record(kind, co, false, 0, [], None, None, 0, map[], true);
    PostedTimes(r, s.tick, s.current);
    PostedRecord(r, s.tick, s.current);
    hide PlacesOk, RecordOk, InOrder;
    ScheduleKeeps(s, id, r);
  }

  /** Scheduling, ending or refreshing a record. */
  lemma PostKeeps(s: State, id: RecordId, r: Record)
    requires Inv(s) && id in s.records
    requires var before := s.records[id]; r == before || r == Restarted(before) || (!before.ended && r == before.(ended := true))
    ensures Inv(Schedule(s, id, r))
  {
    assert TimesOk(s.records[id], s.tick) && RecordOk(s.records[id]);
    PostedTimes(r, s.tick, s.current);
    PostedRecord(r, s.tick, s.current);
    hide PlacesOk, RecordOk, InOrder;
    ScheduleKeeps(s, id, r);
  }

  lemma EndKeeps(s: State, id: RecordId, now: Value)
    requires Inv(s) && Enabled(s, End(id, now))
    ensures Inv(Step(s, End(id, now)))
  {
    var r := s.records[id];
    hide Inv, DoSetInt, Schedule;
    if !(r.kind == Log || r.co) {
      SetIntKeeps(s, id, END_TIME, now);
    }
    var t := if r.kind == Log || r.co then s else DoSetInt(s, id, END_TIME, now);
    PostKeeps(t, id, t.records[id].(ended := true));
  }

  // ---- a tick

  lemma {:induction false} DueCountIs(list: seq<RecordId>, records: map<RecordId, Record>, now: nat)
    requires InOrder(list, records)
    ensures var n := DueCount(list, records, now);
      forall i :: 0 <= i < |list| ==> (i < n <==> records[list[i]].deleteTick <= now)
    decreases |list|
  {
    if list != [] && records[list[0]].deleteTick <= now {
      DueCountIs(list[1..], records, now);
      assert forall i :: 0 < i < |list| ==> list[i] == list[1..][i - 1];
    }
  }

  /** A record is due when it is in the current slot, or its deferral ends. */
  predicate IsDue(s: State, id: RecordId) {
    && id in s.records
    && var r := s.records[id];
    if r.deleteTick > 0 then r.deleteTick <= s.tick + 1 else r.slot == Some(s.current)
  }

  /** The front of the deferred list is what is due on it. */
  lemma DeferredDue(d: seq<RecordId>, records: map<RecordId, Record>, now: nat, id: RecordId)
    requires InOrder(d, records)
    ensures var n := DueCount(d, records, now);
      && (id in d[..n] <==> id in d && records[id].deleteTick <= now)
      && (id in d[n..] <==> id in d && records[id].deleteTick > now)
  {
    DueCountIs(d, records, now);
    var n := DueCount(d, records, now);
    hide DueCount;
    if id in d[..n] {
      var i :| 0 <= i < n && d[..n][i] == id;
      assert d[i] == id;
    }
    if id in d[n..] {
      var i :| 0 <= i < |d| - n && d[n..][i] == id;
      assert d[n + i] == id;
    }
    if id in d {
      var i :| 0 <= i < |d| && d[i] == id;
      if i < n {
        assert d[..n][i] == id;
      } else {
        assert d[n..][i - n] == id;
      }
    }
  }

  lemma InCurrentSlot(s: State, id: RecordId)
    requires PlacesOk(s)
    ensures (id in ListAt(s, InSlot(OtherList, s.current)) || id in ListAt(s, InSlot(FlowList, s.current)) ||
             id in ListAt(s, InSlot(LogList, s.current)) || id in ListAt(s, InSlot(CoList, s.current))) <==>
            id in s.records && s.records[id].deleteTick == 0 && s.records[id].slot == Some(s.current)
  {
    hide ListAt, Distinct;
    if id in s.records {
      var c := ClassOf(s.records[id]);
      assert id in ListAt(s, InSlot(c, s.current)) <==> Where(s.records[id]) == Some(InSlot(c, s.current));
    }
  }

  lemma OnDeferred(s: State, id: RecordId)
    requires PlacesOk(s)
    ensures id in ListAt(s, Deferred) <==> id in s.records && s.records[id].deleteTick > 0
  {
    assert id in ListAt(s, Deferred) <==> id in s.records && Where(s.records[id]) == Some(Deferred);
  }

  lemma DueIs(s: State, id: RecordId)
    requires PlacesOk(s) && InOrder(ListAt(s, Deferred), s.records)
    ensures id in Due(s) <==> IsDue(s, id)
    ensures var d := ListAt(s, Deferred);
      id in d[DueCount(d, s.records, s.tick + 1)..] <==> id in d && !IsDue(s, id)
  {
    hide DueCount, ListAt, PlacesOk, InOrder, ClassOf, Where;
    var d := ListAt(s, Deferred);
    DeferredDue(d, s.records, s.tick + 1, id);
    InCurrentSlot(s, id);
    OnDeferred(s, id);
    InAny(ListAt(s, InSlot(OtherList, s.current)), ListAt(s, InSlot(FlowList, s.current)),
          ListAt(s, InSlot(LogList, s.current)), ListAt(s, InSlot(CoList, s.current)),
          d[..DueCount(d, s.records, s.tick + 1)], id);
  }

  lemma InAny(a: seq<RecordId>, b: seq<RecordId>, c: seq<RecordId>, d: seq<RecordId>, e: seq<RecordId>, id: RecordId)
    ensures id in a + b + c + d + e <==> id in a || id in b || id in c || id in d || id in e
  {
  }

  lemma TickRecord(s: State, reach: Reach, id: RecordId)
    requires Inv(s)
    ensures var t := AfterTick(s, reach);
      id in t.records <==> id in s.records && !(IsDue(s, id) && s.records[id].ended)
    ensures var t := AfterTick(s, reach);
      id in t.records && IsDue(s, id) ==> t.records[id] == Flushed(s.records[id], Reaches(reach, s.records[id]))
    ensures var t := AfterTick(s, reach); id in t.records && !IsDue(s, id) ==> t.records[id] == s.records[id]
  {
    DueIs(s, id);
    hide Inv, Due, IsDue;
  }

  lemma TickTimes(s: State, reach: Reach, id: RecordId)
    requires Inv(s) && id in AfterTick(s, reach).records
    ensures var t := AfterTick(s, reach); RecordOk(t.records[id]) && TimesOk(t.records[id], t.tick)
  {
    TickRecord(s, reach, id);
    var r := s.records[id];
    assert RecordOk(r) && TimesOk(r, s.tick);
    FlushKeeps(r, Reaches(reach, r));
    hide Inv, AfterTick, RecordOk;
  }

  /** The lists after a tick: those of the slot are empty, and the deferred one has lost its front. */
  lemma TickLists(s: State, reach: Reach, q: Place)
    ensures ListAt(AfterTick(s, reach), q) == LeftOn(q, ListAt(s, q), s.records, s.tick + 1, s.current)
  {
    hide Due, RecordsLeft;
  }

  lemma TickPlace(s: State, reach: Reach, q: Place, id: RecordId)
    requires Inv(s)
    ensures var t := AfterTick(s, reach);
      id in ListAt(t, q) <==> id in t.records && Where(t.records[id]) == Some(q)
  {
    TickLists(s, reach, q);
    TickRecord(s, reach, id);
    DueIs(s, id);
    assert id in ListAt(s, q) <==> id in s.records && Where(s.records[id]) == Some(q);
    assert id in s.records ==> TimesOk(s.records[id], s.tick);
    hide Inv, AfterTick, Due, DueCount;
  }

  lemma SuffixDistinct(list: seq<RecordId>, n: nat)
    requires Distinct(list) && n <= |list|
    ensures Distinct(list[n..]) && Distinct<RecordId>([])
  {
  }

  lemma TickDistinct(s: State, reach: Reach, q: Place)
    requires PlacesOk(s)
    ensures Distinct(ListAt(AfterTick(s, reach), q))
  {
    hide Distinct, AfterTick, DueCount;
    TickLists(s, reach, q);
    SuffixDistinct(ListAt(s, q), 0);
    SuffixDistinct(ListAt(s, Deferred), DueCount(ListAt(s, Deferred), s.records, s.tick + 1));
  }

  lemma TickKeeps(s: State, reach: Reach)
    requires Inv(s)
    ensures Inv(AfterTick(s, reach))
  {
    hide AfterTick, Distinct, Where, RecordOk, TimesOk, InOrder, ListAt;
    var t := AfterTick(s, reach);
    forall q ensures Distinct(ListAt(t, q)) {
      TickDistinct(s, reach, q);
    }
    forall q, id ensures id in ListAt(t, q) <==> id in t.records && Where(t.records[id]) == Some(q) {
      TickPlace(s, reach, q, id);
    }
    forall id | id in t.records ensures RecordOk(t.records[id]) && TimesOk(t.records[id], t.tick) {
      TickTimes(s, reach, id);
    }
    TickOrder(s, reach);
    TickClock(s, reach);
  }

  lemma TickClock(s: State, reach: Reach)
    ensures AfterTick(s, reach).current == (s.current + 1) % FLUSH_SLOT_COUNT < FLUSH_SLOT_COUNT
    ensures AfterTick(s, reach).tick == s.tick + 1
  {
  }

  /** Behind the front that goes, the order stays. */
  lemma SuffixInOrder(d: seq<RecordId>, n: nat, records: map<RecordId, Record>, left: map<RecordId, Record>)
    requires InOrder(d, records) && n <= |d|
    requires forall i :: n <= i < |d| ==> d[i] in left && left[d[i]] == records[d[i]]
    ensures InOrder(d[n..], left)
  {
    assert forall i :: 0 <= i < |d| - n ==> d[n..][i] == d[n + i];
  }

  lemma TickOrder(s: State, reach: Reach)
    requires Inv(s)
    ensures InOrder(ListAt(AfterTick(s, reach), Deferred), AfterTick(s, reach).records)
  {
    var t := AfterTick(s, reach);
    var d := ListAt(s, Deferred);
    var n := DueCount(d, s.records, s.tick + 1);
    assert InOrder(d, s.records) && PlacesOk(s);
    TickLists(s, reach, Deferred);
    hide Inv, InOrder, PlacesOk, AfterTick, DueCount, RecordOk, TimesOk, IsDue, ListAt;
    forall i | n <= i < |d| ensures d[i] in t.records && t.records[d[i]] == s.records[d[i]] {
      TickRecord(s, reach, d[i]);
      DueIs(s, d[i]);
      assert d[i] == d[n..][i - n];
    }
    SuffixInOrder(d, n, s.records, t.records);
  }

  /** Every handler keeps each record on the one list it belongs on, and the collector's copy in step. */
  lemma StepKeepsInv(s: State, a: Action)
    requires Inv(s) && Enabled(s, a)
    ensures Inv(Step(s, a))
  {
    hide Inv, Schedule, AfterTick, DoSetInt;
    match a
    case Start(id, kind, co) => StartKeeps(s, id, kind, co);
    case SetString(id, ty, value) => AttributeKeeps(s, id, ty, value);
    case SetInt(id, ty, value) => SetIntKeeps(s, id, ty, value);
    case IncInt(id, ty, amount) => AttributeKeeps(s, id, ty, Incremented(s.records[id], ty, amount));
    case End(id, now) => EndKeeps(s, id, now);
    case Post(id) => PostKeeps(s, id, s.records[id]);
    case Refresh(id) => PostKeeps(s, id, Restarted(s.records[id]));
    case Tick(reach) => TickKeeps(s, reach);
  }

  // ---------------------------------------------------------------- whole runs

  predicate Initial(s: State) {
    s == State(map[], map[], 0, 0)
  }

  ghost predicate Run(states: seq<State>, actions: seq<Action>) {
    && |states| == |actions| + 1
    && Initial(states[0])
    && forall i :: 0 <= i < |actions| ==> Enabled(states[i], actions[i]) && states[i + 1] == Step(states[i], actions[i])
  }

  lemma {:induction false} RunKeepsInv(states: seq<State>, actions: seq<Action>, k: nat)
    requires Run(states, actions) && k < |states|
    ensures Inv(states[k])
    decreases k
  {
    if k > 0 {
      hide Inv, Enabled, Step, Initial;
      RunKeepsInv(states, actions, k - 1);
      StepKeepsInv(states[k - 1], actions[k - 1]);
    }
  }

  /** In every run a record that is not waiting has nothing the collector does not have, and
      what a flush sends brings the collector's copy up to date. */
  lemma NoUpdateIsLost(states: seq<State>, actions: seq<Action>, k: nat, id: RecordId)
    requires Run(states, actions) && k < |states| && id in states[k].records && states[k].records[id].followed
    ensures var r := states[k].records[id];
      && (!Waits(r) ==> r.seen == AllOf(r.attrs))
      && r.seen + Since(r.attrs, r.ordinal) == AllOf(r.attrs)
  {
    RunKeepsInv(states, actions, k);
    FlushIsExact(states[k].records[id]);
  }

  /** A record is at most once on at most one of the lists. */
  lemma OnOneList(states: seq<State>, actions: seq<Action>, k: nat, p: Place, q: Place, i: nat, j: nat)
    requires Run(states, actions) && k < |states|
    requires i < |ListAt(states[k], p)| && j < |ListAt(states[k], q)|
    requires ListAt(states[k], p)[i] == ListAt(states[k], q)[j]
    ensures p == q && i == j
  {
    RunKeepsInv(states, actions, k);
    var s := states[k];
    var id := ListAt(s, p)[i];
    assert id in ListAt(s, p) && id in ListAt(s, q);
    assert Where(s.records[id]) == Some(p) && Where(s.records[id]) == Some(q);
    assert Distinct(ListAt(s, p));
  }

  /** The ticks until a waiting record is flushed. */
  function TicksLeft(s: State, r: Record): int
    requires Waits(r)
  {
    if r.deleteTick > 0 then r.deleteTick - s.tick else (r.slot.value - s.current) % FLUSH_SLOT_COUNT + 1
  }

  lemma SlotTurns(k: nat, c: nat)
    requires k < FLUSH_SLOT_COUNT && c < FLUSH_SLOT_COUNT
    ensures 0 <= (k - c) % FLUSH_SLOT_COUNT < FLUSH_SLOT_COUNT
    ensures (k - c) % FLUSH_SLOT_COUNT == 0 <==> k == c
    ensures k != c ==> (k - (c + 1) % FLUSH_SLOT_COUNT) % FLUSH_SLOT_COUNT == (k - c) % FLUSH_SLOT_COUNT - 1
  {
  }

  lemma CountsDown(s: State, t: State, r: Record)
    requires Waits(r) && TimesOk(r, s.tick) && s.current < FLUSH_SLOT_COUNT
    requires t.tick == s.tick + 1 && t.current == (s.current + 1) % FLUSH_SLOT_COUNT
    ensures 1 <= TicksLeft(s, r) <= (if r.deleteTick > 0 then DEFERRED_DELETION_TICKS else FLUSH_SLOT_COUNT)
    ensures TicksLeft(s, r) == 1 <==> if r.deleteTick > 0 then r.deleteTick <= s.tick + 1 else r.slot == Some(s.current)
    ensures TicksLeft(s, r) > 1 ==> TicksLeft(t, r) == TicksLeft(s, r) - 1
  {
    if r.deleteTick == 0 {
      SlotTurns(r.slot.value, s.current);
    }
  }

  lemma TickCountsDown(s: State, reach: Reach, id: RecordId)
    requires Inv(s) && id in s.records && Waits(s.records[id])
    ensures var r, t := s.records[id], AfterTick(s, reach);
      && 1 <= TicksLeft(s, r) <= (if r.deleteTick > 0 then DEFERRED_DELETION_TICKS else FLUSH_SLOT_COUNT)
      && (IsDue(s, id) <==> TicksLeft(s, r) == 1)
      && (!IsDue(s, id) ==> id in t.records && t.records[id] == r && TicksLeft(t, r) == TicksLeft(s, r) - 1)
  {
    TickRecord(s, reach, id);
    TickClock(s, reach);
    assert TimesOk(s.records[id], s.tick) && s.current < FLUSH_SLOT_COUNT;
    hide Inv, AfterTick, TicksLeft, TimesOk;
    CountsDown(s, AfterTick(s, reach), s.records[id]);
  }

  /** The record that a handler other than the tick writes. */
  function OwnRecord(s: State, a: Action): Record
    requires Enabled(s, a) && !a.Tick?
  {
    var r := if a.Start? then Record(a.kind, a.co, false, 0, [], None, None, 0, map[], true) else s.records[a.id];
    match a
    case Start(_, _, _) => Posted(r, s.tick, s.current)
    case SetString(_, ty, value) => Posted(WithAttribute(r, ty, value), s.tick, s.current)
    case SetInt(_, ty, value) => IntRecord(r, ty, value, s.tick, s.current)
    case IncInt(_, ty, amount) => Posted(WithAttribute(r, ty, Incremented(r, ty, amount)), s.tick, s.current)
    case End(_, now) =>
      var t := if r.kind == Log || r.co then r else IntRecord(r, END_TIME, now, s.tick, s.current);
      Posted(t.(ended := true), s.tick, s.current)
    case Post(_) => Posted(r, s.tick, s.current)
    case Refresh(_) => Posted(Restarted(r), s.tick, s.current)
  }

  function IntRecord(r: Record, ty: AttributeType, value: Value, tick: nat, current: nat): Record {
    if Lookup(r.attrs, ty) == Some(value) then WithAttribute(r, ty, value)
    else Posted(WithAttribute(r, ty, value), tick, current)
  }

  lemma StepWritesOne(s: State, a: Action)
    requires Enabled(s, a) && !a.Tick?
    ensures Step(s, a).records == s.records[a.id := OwnRecord(s, a)]
    ensures Step(s, a).tick == s.tick && Step(s, a).current == s.current
  {
    hide Posted, Relisted, Lookup, Where, WithAttribute, Restarted, Incremented;
  }

  lemma PostedAlready(r: Record, tick: nat, current: nat)
    requires Waits(r) && TimesOk(r, tick)
    ensures Posted(r, tick, current) == r
  {
  }

  /** A waiting record that is written keeps its place, unless that is its end. */
  lemma OwnRecordWaits(s: State, a: Action)
    requires Enabled(s, a) && !a.Tick? && !a.End? && !a.Start?
    requires Waits(s.records[a.id]) && TimesOk(s.records[a.id], s.tick)
    ensures var r, t := s.records[a.id], OwnRecord(s, a); t.slot == r.slot && t.deleteTick == r.deleteTick
  {
    var r := s.records[a.id];
    hide Put, Lookup, Posted, Since;
    match a
    case Post(_) => PostedAlready(r, s.tick, s.current);
    case Refresh(_) => PostedAlready(Restarted(r), s.tick, s.current);
    case SetString(_, ty, value) => PostedAlready(WithAttribute(r, ty, value), s.tick, s.current);
    case SetInt(_, ty, value) => PostedAlready(WithAttribute(r, ty, value), s.tick, s.current);
    case IncInt(_, ty, amount) => PostedAlready(WithAttribute(r, ty, Incremented(r, ty, amount)), s.tick, s.current);
  }

  /** Only the end of a transport flow changes when a waiting record is flushed. */
  lemma OthersDoNotDelay(s: State, a: Action, id: RecordId)
    requires Inv(s) && Enabled(s, a) && !a.Tick? && id in s.records && Waits(s.records[id])
    requires a.End? ==> a.id != id
    ensures var t := Step(s, a); id in t.records && Waits(t.records[id]) && TicksLeft(t, t.records[id]) == TicksLeft(s, s.records[id])
  {
    StepWritesOne(s, a);
    assert TimesOk(s.records[id], s.tick);
    hide Inv, Step, OwnRecord, TimesOk;
    if a.id == id {
      OwnRecordWaits(s, a);
    }
  }

  lemma PostedFollowed(r: Record, tick: nat, current: nat)
    ensures Posted(r, tick, current).followed == r.followed
  {
  }

  lemma OwnFollowed(s: State, a: Action)
    requires Enabled(s, a) && !a.Tick? && (!a.Start? ==> s.records[a.id].followed)
    ensures OwnRecord(s, a).followed
  {
    hide Posted, Put, Lookup, Incremented;
    var r := if a.Start? then Record(a.kind, a.co, false, 0, [], None, None, 0, map[], true) else s.records[a.id];
    match a
    case Start(_, _, _) => PostedFollowed(r, s.tick, s.current);
    case Post(_) => PostedFollowed(r, s.tick, s.current);
    case Refresh(_) => PostedFollowed(Restarted(r), s.tick, s.current);
    case SetString(_, ty, value) => PostedFollowed(WithAttribute(r, ty, value), s.tick, s.current);
    case SetInt(_, ty, value) => PostedFollowed(WithAttribute(r, ty, value), s.tick, s.current);
    case IncInt(_, ty, amount) => PostedFollowed(WithAttribute(r, ty, Incremented(r, ty, amount)), s.tick, s.current);
    case End(_, now) =>
      PostedFollowed(WithAttribute(r, END_TIME, now), s.tick, s.current);
      var t := if r.kind == Log || r.co then r else IntRecord(r, END_TIME, now, s.tick, s.current);
      PostedFollowed(t.(ended := true), s.tick, s.current);
  }

  /** A record stays followed as long as its collector is reached at each flush. */
  lemma StaysFollowed(s: State, a: Action, id: RecordId)
    requires Inv(s) && Enabled(s, a) && id in s.records && s.records[id].followed && id in Step(s, a).records
    requires a.Tick? ==> Reaches(a.reach, s.records[id])
    ensures Step(s, a).records[id].followed
  {
    if a.Tick? {
      TickRecord(s, a.reach, id);
      hide AfterTick, IsDue, Inv;
    } else {
      StepWritesOne(s, a);
      hide Inv, Step, OwnRecord;
      if a.id == id {
        OwnFollowed(s, a);
      }
    }
  }

  function Ticks(actions: seq<Action>): nat {
    if actions == [] then 0 else Ticks(actions[..|actions| - 1]) + if actions[|actions| - 1].Tick? then 1 else 0
  }

  /** A record that waits and has not been flushed has seen fewer ticks than it had left; five at most, or
      twenty-five when it is deferred. */
  lemma {:induction false} FlushedInTime(states: seq<State>, actions: seq<Action>, i: nat, j: nat, id: RecordId)
    requires Run(states, actions) && i <= j < |states| == |actions| + 1
    requires id in states[i].records && Waits(states[i].records[id])
    requires forall k :: i <= k < j ==>
      (actions[k].Tick? ==> !IsDue(states[k], id)) && (actions[k].End? ==> actions[k].id != id)
    ensures id in states[j].records && Waits(states[j].records[id])
    ensures TicksLeft(states[j], states[j].records[id]) + Ticks(actions[i..j]) == TicksLeft(states[i], states[i].records[id])
    ensures Ticks(actions[i..j]) < TicksLeft(states[i], states[i].records[id])
      <= (if states[i].records[id].deleteTick > 0 then 25 else 5)
    decreases j
  {
    hide Run, TicksLeft, IsDue;
    WaitsLong(states, actions, i, id);
    if i < j {
      FlushedInTime(states, actions, i, j - 1, id);
      assert actions[i..j][..j - i - 1] == actions[i..j - 1];
      WaitStep(states, actions, j - 1, id);
    } else {
      assert actions[i..j] == [];
    }
    WaitsLong(states, actions, j, id);
  }

  lemma WaitsLong(states: seq<State>, actions: seq<Action>, k: nat, id: RecordId)
    requires Run(states, actions) && k < |states| && id in states[k].records && Waits(states[k].records[id])
    ensures |states| == |actions| + 1
    ensures 1 <= TicksLeft(states[k], states[k].records[id]) <= if states[k].records[id].deleteTick > 0 then 25 else 5
  {
    hide Inv, Step, Enabled, TicksLeft, IsDue;
    RunKeepsInv(states, actions, k);
    TickCountsDown(states[k], Reach(true, true, true, true), id);
  }

  /** A step that neither flushes nor ends a waiting record. */
  lemma WaitStep(states: seq<State>, actions: seq<Action>, k: nat, id: RecordId)
    requires Run(states, actions) && k < |actions| && id in states[k].records && Waits(states[k].records[id])
    requires (actions[k].Tick? ==> !IsDue(states[k], id)) && (actions[k].End? ==> actions[k].id != id)
    ensures |states| == |actions| + 1 && id in states[k + 1].records && Waits(states[k + 1].records[id])
    ensures TicksLeft(states[k + 1], states[k + 1].records[id]) + (if actions[k].Tick? then 1 else 0) ==
            TicksLeft(states[k], states[k].records[id])
  {
    hide Inv, Step, Enabled, TicksLeft, IsDue;
    RunKeepsInv(states, actions, k);
    var a := actions[k];
    if a.Tick? {
      TickCountsDown(states[k], a.reach, id);
      TickStepIs(states[k], a.reach);
    } else {
      OthersDoNotDelay(states[k], a, id);
    }
  }

  lemma TickStepIs(s: State, reach: Reach)
    ensures Enabled(s, Tick(reach)) && Step(s, Tick(reach)) == AfterTick(s, reach)
  {
  }

  // ---------------------------------------------------------------- what was written and what was sent

  /** What a run did to one record: the attributes `written` to it since its start, the maps `sent` of it since its
      start or last refresh, laid over each other, the attributes `lost`, which were last in a flush that did not
      reach the collector and have not been written since, and whether each flush reached it. */
  datatype History = History(written: map<AttributeType, Value>, sent: map<AttributeType, Value>,
                             lost: set<AttributeType>, whole: bool)

  function Wrote(h: History, ty: AttributeType, value: Value): History {
    h.(written := h.written[ty := value], lost := h.lost - {ty})
  }

  /** The map a tick sends of a record: what has been stamped with its present ordinal or a later one. What is not in
      the map of the next flush any more is lost if this one does not reach the collector. */
  function Sent(h: History, r: Record, reach: Reach): History {
    if Listens(reach, r) then h.(sent := h.sent + Since(r.attrs, r.ordinal))
    else h.(whole := false, lost := h.lost + LastTime(r))
  }

  /** The collector of a record's kind is there. */
  predicate Listens(reach: Reach, r: Record) {
    if r.co then reach.co else if r.kind == Log then reach.log else if r.kind == Other then reach.other else reach.flow
  }

  lemma ListensIs(reach: Reach, r: Record)
    ensures Reaches(reach, r) == Listens(reach, r)
  {
  }

  function LastTime(r: Record): set<AttributeType> {
    set t | t in Since(r.attrs, r.ordinal) && t !in Since(r.attrs, r.ordinal + 1)
  }

  /** The next tick is the one the record waits for. */
  predicate LastTick(s: State, id: RecordId) {
    id in s.records && Waits(s.records[id]) && TicksLeft(s, s.records[id]) == 1
  }

  lemma LastTickIsDue(s: State, id: RecordId)
    requires Inv(s)
    ensures LastTick(s, id) <==> IsDue(s, id)
  {
    if id in s.records && Waits(s.records[id]) {
      TickCountsDown(s, Reach(true, true, true, true), id);
    }
    hide Inv, TicksLeft;
  }

  function NextHistory(s: State, a: Action, id: RecordId, h: History): History {
    match a
    case Start(i, _, _) => if i == id then History(map[], map[], {}, true) else h
    case SetString(i, ty, value) => if i == id then Wrote(h, ty, value) else h
    case SetInt(i, ty, value) => if i == id then Wrote(h, ty, value) else h
    case IncInt(i, ty, amount) =>
      if i == id then Wrote(h, ty, if ty in h.written then (h.written[ty] + amount) % WORD64 else amount) else h
    case End(i, now) =>
      if i == id && id in s.records && s.records[id].kind != Log && !s.records[id].co then Wrote(h, END_TIME, now) else h
    case Post(_) => h
    case Refresh(i) => if i == id then h.(sent := map[], lost := {}, whole := true) else h
    case Tick(reach) => if LastTick(s, id) then Sent(h, s.records[id], reach) else h
  }

  ghost function HistoryOf(states: seq<State>, actions: seq<Action>, id: RecordId, k: nat): History
    requires |states| == |actions| + 1 && k <= |actions|
  {
    if k == 0 then History(map[], map[], {}, true)
    else NextHistory(states[k - 1], actions[k - 1], id, HistoryOf(states, actions, id, k - 1))
  }

  /** The collector has every attribute that the next flush does not send, unless it is lost. */
  ghost predicate Tracks(r: Record, h: History) {
    Sorted(r.attrs) && TracksAt(r.attrs, r.ordinal, h.sent, h.lost)
  }

  /** The record holds what was written to it, and the collector what was sent of it. */
  ghost predicate Reflects(r: Record, h: History) {
    && AllOf(r.attrs) == h.written && r.seen == h.sent && r.followed == h.whole
    && Tracks(r, h) && (h.whole ==> h.lost == {})
  }

  lemma PostedReflects(r: Record, tick: nat, current: nat, h: History)
    requires Reflects(r, h)
    ensures Reflects(Posted(r, tick, current), h)
  {
    hide AllOf, Sorted;
  }

  lemma WrittenTracks(r: Record, ty: AttributeType, value: Value, h: History)
    requires Tracks(r, h)
    ensures Tracks(WithAttribute(r, ty, value), Wrote(h, ty, value))
  {
    var a := Attribute(ty, r.ordinal, value);
    PutSets(r.attrs, a);
    hide Put, Sorted;
    TracksWritten(r.attrs, Put(r.attrs, a), a, h.sent, h.lost);
  }

  lemma TracksWritten(attrs: seq<Attribute>, after: seq<Attribute>, a: Attribute, sent: map<AttributeType, Value>,
                      lost: set<AttributeType>)
    requires TracksAt(attrs, a.ordinal, sent, lost) && forall x :: x in after <==> x == a || (x in attrs && x.ty != a.ty)
    ensures TracksAt(after, a.ordinal, sent, lost - {a.ty})
  {
    forall t | t in sent || t in lost - {a.ty} ensures exists x :: x in after && x.ty == t {
      var x :| x in attrs && x.ty == t;
      assert (if t == a.ty then a else x) in after;
    }
  }

  lemma WrittenReflects(r: Record, ty: AttributeType, value: Value, h: History)
    requires Reflects(r, h)
    ensures Reflects(WithAttribute(r, ty, value), Wrote(h, ty, value))
  {
    PutAllOf(r.attrs, Attribute(ty, r.ordinal, value));
    WrittenTracks(r, ty, value, h);
    hide Tracks, Put, AllOf;
  }

  /** A flush that reaches the collector, and one that does not. */
  lemma FlushTracks(r: Record, h: History, reach: Reach)
    requires Tracks(r, h)
    ensures Tracks(Flushed(r, Reaches(reach, r)), Sent(h, r, reach))
  {
    hide *;
    TracksSorted(r, h);
    SinceShows(r.attrs, r.ordinal);
    SinceShows(r.attrs, r.ordinal + 1);
    ReachedTracks(r, h, Since(r.attrs, r.ordinal));
    UnreachedTracks(r, h, Since(r.attrs, r.ordinal), Since(r.attrs, r.ordinal + 1));
    SentTracks(r, h, reach);
  }

  lemma TracksSorted(r: Record, h: History)
    requires Tracks(r, h)
    ensures Sorted(r.attrs) && TracksAt(r.attrs, r.ordinal, h.sent, h.lost)
  {
  }

  lemma SentTracks(r: Record, h: History, reach: Reach)
    requires Sorted(r.attrs) && TracksAt(r.attrs, r.ordinal + 1, h.sent + Since(r.attrs, r.ordinal), h.lost)
    requires TracksAt(r.attrs, r.ordinal + 1, h.sent,
               h.lost + set t | t in Since(r.attrs, r.ordinal) && t !in Since(r.attrs, r.ordinal + 1))
    ensures Tracks(Flushed(r, Reaches(reach, r)), Sent(h, r, reach))
  {
    ListensIs(reach, r);
    hide TracksAt, Since, Reaches, Listens, Sorted;
  }

  /** What holds of a record with this ordinal and these maps. */
  ghost predicate TracksAt(attrs: seq<Attribute>, ordinal: nat, sent: map<AttributeType, Value>, lost: set<AttributeType>) {
    && (forall x :: x in attrs && x.ordinal < ordinal && x.ty !in lost ==> x.ty in sent && sent[x.ty] == x.value)
    && (forall x :: x in attrs && x.ordinal >= ordinal ==> x.ty !in lost)
    && (forall t :: t in sent || t in lost ==> exists x :: x in attrs && x.ty == t)
  }

  lemma ReachedTracks(r: Record, h: History, now: map<AttributeType, Value>)
    requires TracksAt(r.attrs, r.ordinal, h.sent, h.lost) && Shows(r.attrs, r.ordinal, now)
    ensures TracksAt(r.attrs, r.ordinal + 1, h.sent + now, h.lost)
  {
    var got := h.sent + now;
    forall x | x in r.attrs && x.ordinal < r.ordinal + 1 && x.ty !in h.lost ensures x.ty in got && got[x.ty] == x.value {
      assert x.ty in now <==> x.ordinal >= r.ordinal;
    }
    forall t | t in got || t in h.lost ensures exists x :: x in r.attrs && x.ty == t {
      if t in now {
        var x :| x in r.attrs && x.ty == t;
      } else {
        var x :| x in r.attrs && x.ty == t;
      }
    }
  }

  lemma UnreachedTracks(r: Record, h: History, now: map<AttributeType, Value>, later: map<AttributeType, Value>)
    requires TracksAt(r.attrs, r.ordinal, h.sent, h.lost) && Shows(r.attrs, r.ordinal, now) && Shows(r.attrs, r.ordinal + 1, later)
    ensures TracksAt(r.attrs, r.ordinal + 1, h.sent, h.lost + set t | t in now && t !in later)
  {
    var lost := h.lost + set t | t in now && t !in later;
    forall x | x in r.attrs && x.ordinal < r.ordinal + 1 && x.ty !in lost ensures x.ty in h.sent && h.sent[x.ty] == x.value {
      assert x.ty in now <==> x.ordinal >= r.ordinal;
      assert x.ty !in later;
    }
    forall x | x in r.attrs && x.ordinal >= r.ordinal + 1 ensures x.ty !in lost {
      assert x.ty in later;
    }
    forall t | t in h.sent || t in lost ensures exists x :: x in r.attrs && x.ty == t {
      if t in now {
        var x :| x in r.attrs && x.ty == t;
      } else {
        var x :| x in r.attrs && x.ty == t;
      }
    }
  }

  lemma FlushReflects(r: Record, h: History, reach: Reach)
    requires Reflects(r, h)
    ensures Reflects(Flushed(r, Reaches(reach, r)), Sent(h, r, reach))
  {
    FlushTracks(r, h, reach);
    ListensIs(reach, r);
    hide Tracks, Since, AllOf, Reaches, Listens, LastTime;
  }

  lemma IntReflects(r: Record, ty: AttributeType, value: Value, tick: nat, current: nat, h: History)
    requires Reflects(r, h)
    ensures Reflects(IntRecord(r, ty, value, tick, current), Wrote(h, ty, value))
  {
    hide Reflects, Posted, WithAttribute, Wrote;
    WrittenReflects(r, ty, value, h);
    PostedReflects(WithAttribute(r, ty, value), tick, current, Wrote(h, ty, value));
  }

  lemma StartReflects(kind: Kind, co: bool)
    ensures Reflects(Record(kind, co, false, 0, [], None, None, 0, map[], true), History(map[], map[], {}, true))
  {
  }

  lemma RestartReflects(r: Record, h: History)
    requires Reflects(r, h)
    ensures Reflects(Restarted(r), h.(sent := map[], lost := {}, whole := true))
    ensures Reflects(r.(ended := true), h)
  {
    hide AllOf, Sorted;
  }

  lemma IncrementReflects(r: Record, ty: AttributeType, amount: Value, h: History)
    requires Reflects(r, h)
    ensures Incremented(r, ty, amount) == if ty in h.written then (h.written[ty] + amount) % WORD64 else amount
  {
    hide AllOf, Tracks;
  }

  lemma OwnReflects(s: State, a: Action, h: History)
    requires Enabled(s, a) && !a.Tick? && (a.id in s.records ==> Reflects(s.records[a.id], h))
    ensures Reflects(OwnRecord(s, a), NextHistory(s, a, a.id, h))
  {
    hide Reflects, Posted, WithAttribute, Wrote, IntRecord, Restarted, Incremented;
    var g := NextHistory(s, a, a.id, h);
    match a
    case Start(id, kind, co) =>
      StartReflects(kind, co);
      PostedReflects(Record(kind, co, false, 0, [], None, None, 0, map[], true), s.tick, s.current, g);
    case SetString(id, ty, value) =>
      WrittenReflects(s.records[id], ty, value, h);
      PostedReflects(WithAttribute(s.records[id], ty, value), s.tick, s.current, g);
    case SetInt(id, ty, value) => IntReflects(s.records[id], ty, value, s.tick, s.current, h);
    case IncInt(id, ty, amount) =>
      var v := Incremented(s.records[id], ty, amount);
      IncrementReflects(s.records[id], ty, amount, h);
      WrittenReflects(s.records[id], ty, v, h);
      PostedReflects(WithAttribute(s.records[id], ty, v), s.tick, s.current, g);
    case End(id, now) =>
      var r := s.records[id];
      IntReflects(r, END_TIME, now, s.tick, s.current, h);
      var t := if r.kind == Log || r.co then r else IntRecord(r, END_TIME, now, s.tick, s.current);
      RestartReflects(t, g);
      PostedReflects(t.(ended := true), s.tick, s.current, g);
    case Post(id) => PostedReflects(s.records[id], s.tick, s.current, g);
    case Refresh(id) =>
      RestartReflects(s.records[id], h);
      PostedReflects(Restarted(s.records[id]), s.tick, s.current, g);
  }

  lemma StepReflects(s: State, a: Action, id: RecordId, h: History)
    requires Inv(s) && Enabled(s, a) && (id in s.records ==> Reflects(s.records[id], h))
    ensures id in Step(s, a).records ==> Reflects(Step(s, a).records[id], NextHistory(s, a, id, h))
  {
    if a.Tick? {
      TickRecord(s, a.reach, id);
      LastTickIsDue(s, id);
      hide Inv, AfterTick, IsDue, LastTick, Reflects, Flushed, Sent;
      if id in s.records {
        FlushReflects(s.records[id], h, a.reach);
      }
    } else {
      hide Inv, Reflects, Step, OwnRecord;
      StepWritesOne(s, a);
      if a.id == id {
        OwnReflects(s, a, h);
      }
    }
  }

  /** In every run, the attribute list is the map of what was written, and the collector's copy is the maps sent
      laid over each other. */
  lemma {:induction false} RunReflects(states: seq<State>, actions: seq<Action>, k: nat, id: RecordId)
    requires Run(states, actions) && k < |states|
    ensures id in states[k].records ==> Reflects(states[k].records[id], HistoryOf(states, actions, id, k))
    decreases k
  {
    if k > 0 {
      hide Enabled, Step, Initial, Reflects, NextHistory, Inv;
      RunReflects(states, actions, k - 1, id);
      RunKeepsInv(states, actions, k - 1);
      StepReflects(states[k - 1], actions[k - 1], id, HistoryOf(states, actions, id, k - 1));
    }
  }

  /** The lost attributes have not changed since the collector last got them. */
  predicate LostAreKnown(h: History) {
    forall t :: t in h.lost ==> t in h.sent && t in h.written && h.sent[t] == h.written[t]
  }

  /** What the collector has after the next flush of an attribute. */
  lemma TrackedType(r: Record, h: History, t: AttributeType)
    requires Reflects(r, h)
    ensures var got := h.sent + Since(r.attrs, r.ordinal);
      && (t in h.lost ==> t in h.written && (t in got <==> t in h.sent) && (t in got ==> got[t] == h.sent[t]))
      && (t !in h.lost ==> (t in got <==> t in h.written) && (t in got ==> got[t] == h.written[t]))
  {
    SinceShows(r.attrs, r.ordinal);
    SinceShows(r.attrs, 0);
    hide Since, Sorted;
    var next := Since(r.attrs, r.ordinal);
    assert Shows(r.attrs, 0, h.written);
    if t in h.written || t in h.sent || t in next || t in h.lost {
      var x :| x in r.attrs && x.ty == t;
    }
  }

  lemma TrackedMerge(r: Record, h: History)
    requires Reflects(r, h)
    ensures h.sent + Since(r.attrs, r.ordinal) == h.written <==> LostAreKnown(h)
  {
    hide Since, Reflects;
    var got := h.sent + Since(r.attrs, r.ordinal);
    if LostAreKnown(h) {
      forall t ensures t in got <==> t in h.written {
        TrackedType(r, h, t);
      }
      forall t | t in got ensures got[t] == h.written[t] {
        TrackedType(r, h, t);
      }
    } else {
      var t :| t in h.lost && !(t in h.sent && t in h.written && h.sent[t] == h.written[t]);
      TrackedType(r, h, t);
    }
  }

  /** What a flush that the collector does not see costs: in every run, the maps sent, and the one the next flush
      would send, make up all that was ever written to the record, if and only if the collector has had the present
      value of each lost attribute. */
  lemma UnreachedFlushExact(states: seq<State>, actions: seq<Action>, k: nat, id: RecordId)
    requires Run(states, actions) && k < |states| && id in states[k].records
    ensures var h := HistoryOf(states, actions, id, k); var r := states[k].records[id];
      h.sent + Since(r.attrs, r.ordinal) == h.written <==> LostAreKnown(h)
  {
    hide Step, Enabled, Initial, HistoryOf, Since, LostAreKnown, Reflects;
    RunReflects(states, actions, k, id);
    TrackedMerge(states[k].records[id], HistoryOf(states, actions, id, k));
  }

  /** No update is lost as long as each flush of a record since its start or last refresh reaches the collector: the
      maps sent, and the one the next flush would send, make up all that was ever written to the record; and nothing
      is left to send of a record that does not wait. */
  lemma SentIsWritten(states: seq<State>, actions: seq<Action>, k: nat, id: RecordId)
    requires Run(states, actions) && k < |states| && id in states[k].records
    ensures var h := HistoryOf(states, actions, id, k); var r := states[k].records[id];
      && (LostAreKnown(h) ==> h.sent + Since(r.attrs, r.ordinal) == h.written)
      && (h.whole ==> LostAreKnown(h) && h.lost == {})
      && (h.whole && !Waits(r) ==> h.sent == h.written)
  {
    hide Step, Enabled, Initial, HistoryOf, AllOf, Since, Waits, Tracks;
    RunReflects(states, actions, k, id);
    UnreachedFlushExact(states, actions, k, id);
    if states[k].records[id].followed {
      NoUpdateIsLost(states, actions, k, id);
    }
  }
}
