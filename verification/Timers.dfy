/** Timers kept as a list of delays, each relative to the one before, and the life of a timer across
    the threads that schedule, cancel, free and run it. Each section of code under the
    lock is one step; a run is any interleaving of such steps. */
module Timers {
  import opened Options

  type TimerId = nat

  /** A timer on the list: its delay counts from the timer before it. */
  datatype Entry = Entry(id: TimerId, delta: nat)

  // ---------------------------------------------------------------- the list of delays

  ghost predicate Listed(list: seq<Entry>, id: TimerId) {
    exists i :: 0 <= i < |list| && list[i].id == id
  }

  ghost predicate DistinctIds(list: seq<Entry>) {
    forall i, j :: 0 <= i < j < |list| ==> list[i].id != list[j].id
  }

  /** The delay of a listed timer from the time base: the sum of the deltas up to it. */
  function DueIn(list: seq<Entry>, id: TimerId): nat {
    if list == [] then 0
    else if list[0].id == id then list[0].delta
    else list[0].delta + DueIn(list[1..], id)
  }

  /** The list after `elapsed` has passed. */
  function Elapsed(list: seq<Entry>, elapsed: nat): seq<Entry> {
    if list == [] || elapsed == 0 then list
    else if list[0].delta >= elapsed then [list[0].(delta := list[0].delta - elapsed)] + list[1..]
    else [list[0].(delta := 0)] + Elapsed(list[1..], elapsed - list[0].delta)
  }

  /** The list with a timer due in `delay` put before the first that is due no sooner. */
  function Inserted(list: seq<Entry>, id: TimerId, delay: nat): seq<Entry> {
    if list == [] then [Entry(id, delay)]
    else if list[0].delta < delay then [list[0]] + Inserted(list[1..], id, delay - list[0].delta)
    else [Entry(id, delay), list[0].(delta := list[0].delta - delay)] + list[1..]
  }

  /** The list without a timer: the next one takes over its delta. */
  function Removed(list: seq<Entry>, id: TimerId): seq<Entry> {
    if list == [] then []
    else if list[0].id != id then [list[0]] + Removed(list[1..], id)
    else if |list| == 1 then []
    else [list[1].(delta := list[1].delta + list[0].delta)] + list[2..]
  }

  lemma ListedHead(list: seq<Entry>, id: TimerId)
    requires list != []
    ensures Listed(list, id) <==> list[0].id == id || Listed(list[1..], id)
  {
    if Listed(list, id) && list[0].id != id {
      var i :| 0 <= i < |list| && list[i].id == id;
      assert list[1..][i - 1].id == id;
    }
    if Listed(list[1..], id) {
      var i :| 0 <= i < |list[1..]| && list[1..][i].id == id;
      assert list[i + 1].id == id;
    }
  }

  function Min0(x: int): nat {
    if x < 0 then 0 else x
  }

  lemma {:induction false} ElapsedSameIds(list: seq<Entry>, elapsed: nat)
    ensures |Elapsed(list, elapsed)| == |list|
    ensures forall i :: 0 <= i < |list| ==> Elapsed(list, elapsed)[i].id == list[i].id
    decreases |list|
  {
    if list != [] && elapsed > list[0].delta {
      ElapsedSameIds(list[1..], elapsed - list[0].delta);
    }
  }

  /** Time passing brings every timer closer, down to zero. */
  lemma {:induction false} ElapsedDue(list: seq<Entry>, elapsed: nat, id: TimerId)
    requires Listed(list, id)
    ensures DueIn(Elapsed(list, elapsed), id) == Min0(DueIn(list, id) - elapsed)
    decreases |list|
  {
    ListedHead(list, id);
    var r := Elapsed(list, elapsed);
    if elapsed > 0 {
      if list[0].delta >= elapsed {
        assert r[1..] == list[1..];
      } else {
        assert r[1..] == Elapsed(list[1..], elapsed - list[0].delta);
        if list[0].id != id {
          ElapsedDue(list[1..], elapsed - list[0].delta, id);
        }
      }
    }
  }

  /** A timer put in is due when asked, and no other timer's delay changes. */
  lemma {:induction false} InsertedDue(list: seq<Entry>, id: TimerId, delay: nat, k: TimerId)
    requires !Listed(list, id)
    ensures DueIn(Inserted(list, id, delay), id) == delay
    ensures k != id && Listed(list, k) ==> DueIn(Inserted(list, id, delay), k) == DueIn(list, k)
    ensures Listed(Inserted(list, id, delay), k) <==> k == id || Listed(list, k)
    decreases |list|
  {
    var r := Inserted(list, id, delay);
    ListedHead(r, k);
    if list != [] {
      ListedHead(list, id);
      ListedHead(list, k);
      if list[0].delta < delay {
        InsertedDue(list[1..], id, delay - list[0].delta, k);
        assert r[1..] == Inserted(list[1..], id, delay - list[0].delta);
      } else {
        assert r[1..] == [list[0].(delta := list[0].delta - delay)] + list[1..];
        assert r[1..][1..] == list[1..];
        ListedHead(r[1..], k);
      }
    } else {
      assert r[1..] == [];
    }
  }

  lemma {:induction false} InsertedDistinct(list: seq<Entry>, id: TimerId, delay: nat)
    requires DistinctIds(list) && !Listed(list, id)
    ensures DistinctIds(Inserted(list, id, delay))
    decreases |list|
  {
    var r := Inserted(list, id, delay);
    if list != [] {
      ListedHead(list, id);
      if list[0].delta < delay {
        var rest := Inserted(list[1..], id, delay - list[0].delta);
        InsertedDistinct(list[1..], id, delay - list[0].delta);
        InsertedDue(list[1..], id, delay - list[0].delta, list[0].id);
        HeadIsAlone(list);
        ConsDistinct(list[0], rest);
      } else {
        forall i, j | 0 <= i < j < |r| ensures r[i].id != r[j].id {
          assert r[j].id == list[j - 1].id;
          assert i > 0 ==> r[i].id == list[i - 1].id;
        }
      }
    }
  }

  lemma HeadIsAlone(list: seq<Entry>)
    requires DistinctIds(list) && list != []
    ensures !Listed(list[1..], list[0].id) && DistinctIds(list[1..])
  {
  }

  lemma ConsDistinct(e: Entry, list: seq<Entry>)
    requires DistinctIds(list) && !Listed(list, e.id)
    ensures DistinctIds([e] + list)
  {
    var r := [e] + list;
    forall i, j | 0 <= i < j < |r| ensures r[i].id != r[j].id {
      assert r[j] == list[j - 1];
      assert i > 0 ==> r[i] == list[i - 1];
    }
  }

  /** Taking a timer off changes no other timer's delay. */
  lemma {:induction false} RemovedDue(list: seq<Entry>, id: TimerId, k: TimerId)
    requires DistinctIds(list)
    ensures k != id && Listed(list, k) ==> DueIn(Removed(list, id), k) == DueIn(list, k)
    ensures Listed(Removed(list, id), k) <==> k != id && Listed(list, k)
    decreases |list|
  {
    var r := Removed(list, id);
    if list != [] {
      HeadIsAlone(list);
      ListedHead(list, k);
      if list[0].id != id {
        RemovedDue(list[1..], id, k);
        assert r[1..] == Removed(list[1..], id);
        ListedHead(r, k);
      } else if |list| > 1 {
        ListedHead(list[1..], k);
        ListedHead(r, k);
        assert r[1..] == list[2..] == list[1..][1..];
      }
    }
  }

  lemma {:induction false} RemovedDistinct(list: seq<Entry>, id: TimerId)
    requires DistinctIds(list)
    ensures DistinctIds(Removed(list, id))
    decreases |list|
  {
    if list != [] {
      HeadIsAlone(list);
      if list[0].id != id {
        RemovedDistinct(list[1..], id);
        RemovedDue(list[1..], id, list[0].id);
        ConsDistinct(list[0], Removed(list[1..], id));
      } else if |list| > 1 {
        var r := Removed(list, id);
        assert forall i :: 0 <= i < |r| ==> r[i].id == list[i + 1].id;
      }
    }
  }

  // ---------------------------------------------------------------- states and steps

  datatype Phase = Idle | Scheduled | Running | Blocked | Deleted

  /** A timer: its references, and who has them: the user, and the callbacks that are running. Threads may
      be waiting in a cancel or in the free for a callback to end. */
  datatype Timer = Timer(phase: Phase, refs: nat, user: bool, callbacks: nat, cancelling: nat, freeing: bool)

  /** The scheduled timers, the time their delays count from, and the deadlines that were asked for. */
  datatype Queue = Queue(list: seq<Entry>, base: nat, deadline: map<TimerId, int>)

  datatype State = State(queue: Queue, timers: map<TimerId, Timer>)

  datatype Action =
    | Create(id: TimerId)
    | Schedule(id: TimerId, now: nat, delay: nat)
    | Cancel(id: TimerId) | CancelResumes(id: TimerId)
    | Free(id: TimerId, inCallback: bool) | FreeResumes(id: TimerId)
    | Visit(now: nat) | Fire(id: TimerId) | Done(id: TimerId)

  predicate Initial(s: State) {
    s == State(Queue([], 0, map[]), map[])
  }

  /** The time base moves to `now`, and the delays with it; a base of zero means "none yet". */
  function Adjusted(q: Queue, now: nat): Queue {
    q.(list := if q.base != 0 && now > q.base then Elapsed(q.list, now - q.base) else q.list, base := now)
  }

  predicate Held(s: State, id: TimerId) {
    id in s.timers && s.timers[id].user
  }

  predicate Enabled(s: State, a: Action) {
    match a
    case Create(id) => id !in s.timers
    case Schedule(id, _, _) => Held(s, id)
    case Cancel(id) => Held(s, id)
    case CancelResumes(id) => Held(s, id) && s.timers[id].cancelling > 0
    case Free(id, _) => Held(s, id) && s.timers[id].cancelling == 0 && !s.timers[id].freeing
    case FreeResumes(id) => Held(s, id) && s.timers[id].cancelling == 0 && s.timers[id].freeing
    case Visit(_) => true
    case Fire(id) => s.queue.list != [] && s.queue.list[0] == Entry(id, 0)
    case Done(id) => id in s.timers && s.timers[id].callbacks > 0
  }

  /** Takes a scheduled timer off the list. */
  function Unlisted(s: State, id: TimerId): State
    requires id in s.timers
  {
    if s.timers[id].phase == Scheduled then
      State(s.queue.(list := Removed(s.queue.list, id)), s.timers[id := s.timers[id].(phase := Idle)])
    else s
  }

  /** Gives a reference back; the last one frees the timer. */
  function Released(timers: map<TimerId, Timer>, id: TimerId): map<TimerId, Timer>
    requires id in timers
  {
    if timers[id].refs <= 1 then timers - {id} else timers[id := timers[id].(refs := timers[id].refs - 1)]
  }

  function DoSchedule(s: State, id: TimerId, now: nat, delay: nat): State
    requires id in s.timers
  {
    var t := Unlisted(s, id);
    var q := Adjusted(t.queue, now);
    var timer := t.timers[id];
    State(q.(list := Inserted(q.list, id, delay), deadline := q.deadline[id := now + delay]),
          t.timers[id := timer.(phase := Scheduled,
                                refs := if s.timers[id].phase == Scheduled then timer.refs else timer.refs + 1)])
  }

  function DoCancel(s: State, id: TimerId): State
    requires id in s.timers
  {
    var t := Unlisted(s, id);
    var timers := t.timers[id := t.timers[id].(phase := Idle)];
    State(t.queue, if s.timers[id].phase == Scheduled then Released(timers, id) else timers)
  }

  function DoFree(s: State, id: TimerId): State
    requires id in s.timers
  {
    var t := Unlisted(s, id);
    var timers := if s.timers[id].phase == Scheduled then Released(t.timers, id) else t.timers;
    if id !in timers then State(t.queue, timers)
    else State(t.queue, Released(timers[id := timers[id].(phase := Deleted, user := false, freeing := false)], id))
  }

  function Step(s: State, a: Action): State
    requires Enabled(s, a)
  {
    match a
    case Create(id) => s.(timers := s.timers[id := Timer(Idle, 1, true, 0, 0, false)])
    case Schedule(id, now, delay) => DoSchedule(s, id, now, delay)
    case Cancel(id) =>
      var timer := s.timers[id];
      if timer.phase == Running then
        s.(timers := s.timers[id := timer.(phase := Blocked, cancelling := timer.cancelling + 1)])
      else DoCancel(s, id)
    case CancelResumes(id) =>
      var timer := s.timers[id];
      DoCancel(s.(timers := s.timers[id := timer.(cancelling := timer.cancelling - 1)]), id)
    case Free(id, inCallback) =>
      var timer := s.timers[id];
      if timer.phase == Running && !inCallback then
        s.(timers := s.timers[id := timer.(phase := Blocked, freeing := true)])
      else DoFree(s, id)
    case FreeResumes(id) => DoFree(s, id)
    case Visit(now) => s.(queue := Adjusted(s.queue, now))
    case Fire(id) =>
      if id !in s.timers then s
      else
        var t := Unlisted(s, id);
        t.(timers := t.timers[id := t.timers[id].(phase := Running, callbacks := t.timers[id].callbacks + 1)])
    case Done(id) =>
      var timer := s.timers[id];
      var phase := if timer.phase == Running then Idle else timer.phase;
      s.(timers := Released(s.timers[id := timer.(phase := phase, callbacks := timer.callbacks - 1)], id))
  }

  // ---------------------------------------------------------------- life and references

  function Count(b: bool): nat {
    if b then 1 else 0
  }

  ghost predicate TimerOk(timer: Timer, listed: bool) {
    && (listed <==> timer.phase == Scheduled)
    && timer.refs == Count(timer.user) + Count(listed) + timer.callbacks
    && timer.refs > 0
    && (timer.user <==> timer.phase != Deleted)
  }

  ghost predicate LifeOk(s: State) {
    && DistinctIds(s.queue.list)
    && (forall id :: Listed(s.queue.list, id) ==> id in s.timers)
    && (forall id :: id in s.timers ==> TimerOk(s.timers[id], Listed(s.queue.list, id)))
  }

  /** Each delay on the list is what is left of the requested one. */
  ghost predicate DelaysOk(q: Queue) {
    && DistinctIds(q.list)
    && forall id :: Listed(q.list, id) ==> id in q.deadline && DueIn(q.list, id) == Min0(q.deadline[id] - q.base)
  }

  lemma AdjustedLists(q: Queue, now: nat)
    ensures DistinctIds(q.list) ==> DistinctIds(Adjusted(q, now).list)
    ensures forall id :: Listed(Adjusted(q, now).list, id) <==> Listed(q.list, id)
  {
    var r := Adjusted(q, now).list;
    if q.base != 0 && now > q.base {
      ElapsedSameIds(q.list, now - q.base);
    }
    forall id ensures Listed(r, id) <==> Listed(q.list, id) {
      if Listed(r, id) {
        var i :| 0 <= i < |r| && r[i].id == id;
        assert q.list[i].id == id;
      }
      if Listed(q.list, id) {
        var i :| 0 <= i < |q.list| && q.list[i].id == id;
        assert r[i].id == id;
      }
    }
  }

  lemma RemovedLists(list: seq<Entry>, id: TimerId)
    requires DistinctIds(list)
    ensures DistinctIds(Removed(list, id))
    ensures forall k :: Listed(Removed(list, id), k) <==> k != id && Listed(list, k)
  {
    RemovedDistinct(list, id);
    forall k ensures Listed(Removed(list, id), k) <==> k != id && Listed(list, k) {
      RemovedDue(list, id, k);
    }
  }

  lemma InsertedLists(list: seq<Entry>, id: TimerId, delay: nat)
    requires DistinctIds(list) && !Listed(list, id)
    ensures DistinctIds(Inserted(list, id, delay))
    ensures forall k :: Listed(Inserted(list, id, delay), k) <==> k == id || Listed(list, k)
  {
    InsertedDistinct(list, id, delay);
    forall k ensures Listed(Inserted(list, id, delay), k) <==> k == id || Listed(list, k) {
      InsertedDue(list, id, delay, k);
    }
  }

  /** After a timer is taken off the list, only its own place in the books is open. */
  lemma UnlistedKeeps(s: State, id: TimerId)
    requires LifeOk(s) && id in s.timers
    ensures var t := Unlisted(s, id);
      && DistinctIds(t.queue.list)
      && (forall k :: Listed(t.queue.list, k) <==> k != id && Listed(s.queue.list, k))
      && t.timers.Keys == s.timers.Keys
      && (forall k :: k in s.timers && k != id ==> t.timers[k] == s.timers[k])
      && t.timers[id] == s.timers[id].(phase := if s.timers[id].phase == Scheduled then Idle else s.timers[id].phase)
  {
    hide DistinctIds, Listed, Removed;
    RemovedLists(s.queue.list, id);
  }

  lemma ScheduleKeeps(s: State, id: TimerId, now: nat, delay: nat)
    requires LifeOk(s) && Held(s, id)
    ensures LifeOk(DoSchedule(s, id, now, delay))
  {
    UnlistedKeeps(s, id);
    hide DistinctIds, Listed, Removed, Inserted, Adjusted, Unlisted;
    var t := Unlisted(s, id);
    AdjustedLists(t.queue, now);
    InsertedLists(Adjusted(t.queue, now).list, id, delay);
  }

  lemma CancelKeeps(s: State, id: TimerId)
    requires LifeOk(s) && Held(s, id)
    ensures LifeOk(DoCancel(s, id))
  {
    UnlistedKeeps(s, id);
    hide DistinctIds, Listed, Removed, Unlisted;
  }

  lemma FreeKeeps(s: State, id: TimerId)
    requires LifeOk(s) && Held(s, id)
    ensures LifeOk(DoFree(s, id))
  {
    UnlistedKeeps(s, id);
    hide DistinctIds, Listed, Removed, Unlisted;
  }

  lemma FireKeeps(s: State, id: TimerId)
    requires LifeOk(s) && Enabled(s, Fire(id))
    ensures LifeOk(Step(s, Fire(id)))
    ensures id in s.timers && s.timers[id].phase == Scheduled
  {
    assert Listed(s.queue.list, id);
    UnlistedKeeps(s, id);
    hide DistinctIds, Listed, Removed, Unlisted;
  }

  lemma VisitKeeps(s: State, now: nat)
    requires LifeOk(s)
    ensures LifeOk(Step(s, Visit(now)))
  {
    hide DistinctIds, Listed;
    AdjustedLists(s.queue, now);
  }

  /** Every step keeps the books of every timer. */
  lemma StepKeepsLife(s: State, a: Action)
    requires LifeOk(s) && Enabled(s, a)
    ensures LifeOk(Step(s, a))
  {
    hide DistinctIds, Listed, DoSchedule, DoCancel, DoFree, Unlisted, Adjusted;
    match a
    case Schedule(id, now, delay) => ScheduleKeeps(s, id, now, delay);
    case Cancel(id) =>
      if s.timers[id].phase != Running {
        CancelKeeps(s, id);
      }
    case CancelResumes(id) =>
      CancelKeeps(s.(timers := s.timers[id := s.timers[id].(cancelling := s.timers[id].cancelling - 1)]), id);
    case Free(id, inCallback) =>
      if s.timers[id].phase != Running || inCallback {
        FreeKeeps(s, id);
      }
    case FreeResumes(id) => FreeKeeps(s, id);
    case Visit(now) => VisitKeeps(s, now);
    case Fire(id) => FireKeeps(s, id);
    case Create(id) =>
    case Done(id) =>
  }

  // ---------------------------------------------------------------- delays and deadlines

  /** Moving the time base keeps the delays right exactly when a base had been set, or the clock
      still reads zero, or nothing on the list is still to wait for. */
  lemma AdjustExact(q: Queue, now: nat)
    requires DelaysOk(q) && now >= q.base
    ensures DelaysOk(Adjusted(q, now)) <==>
            q.base != 0 || now == 0 || forall id :: Listed(q.list, id) ==> DueIn(q.list, id) == 0
  {
    AdjustedLists(q, now);
    var r := Adjusted(q, now);
    hide Elapsed, Listed, DueIn, DistinctIds;
    if q.base != 0 && now > q.base {
      forall id | Listed(r.list, id) ensures DueIn(r.list, id) == Min0(q.deadline[id] - now) {
        ElapsedDue(q.list, now - q.base, id);
      }
    } else if q.base == 0 && now > 0 {
      forall id | Listed(q.list, id)
        ensures DueIn(r.list, id) == Min0(q.deadline[id] - now) <==> DueIn(q.list, id) == 0
      {
      }
      if exists id :: Listed(q.list, id) && DueIn(q.list, id) != 0 {
        var id :| Listed(q.list, id) && DueIn(q.list, id) != 0;
        assert Listed(r.list, id);
      }
    }
  }

  /** Such a case: the first reading of the clock is zero, and the delay is never counted down. */
  lemma ClockFromZero()
    ensures var q := Queue([Entry(7, 100)], 0, map[7 := 100]);
      DelaysOk(q) && !DelaysOk(Adjusted(q, 50)) && DueIn(Adjusted(q, 50).list, 7) == 100
  {
    var q := Queue([Entry(7, 100)], 0, map[7 := 100]);
    assert q.list[0].id == 7;
    assert Listed(q.list, 7);
    AdjustExact(q, 50);
  }

  lemma UnlistedDelays(q: Queue, id: TimerId)
    requires DelaysOk(q)
    ensures DelaysOk(q.(list := Removed(q.list, id)))
  {
    hide Removed, DueIn;
    RemovedLists(q.list, id);
    forall k | Listed(Removed(q.list, id), k)
      ensures k in q.deadline && DueIn(Removed(q.list, id), k) == Min0(q.deadline[k] - q.base)
    {
      RemovedDue(q.list, id, k);
    }
  }

  lemma InsertedDelays(q: Queue, id: TimerId, delay: nat)
    requires DelaysOk(q) && !Listed(q.list, id)
    ensures DelaysOk(q.(list := Inserted(q.list, id, delay), deadline := q.deadline[id := q.base + delay]))
  {
    hide Inserted, DueIn;
    InsertedLists(q.list, id, delay);
    var r := q.(list := Inserted(q.list, id, delay), deadline := q.deadline[id := q.base + delay]);
    forall k | Listed(r.list, k) ensures k in r.deadline && DueIn(r.list, k) == Min0(r.deadline[k] - r.base) {
      InsertedDue(q.list, id, delay, k);
    }
  }

  /** The clock reading a step makes, if any. */
  predicate Clocked(s: State, a: Action) {
    (a.Schedule? || a.Visit? ==> 0 < a.now && s.queue.base <= a.now)
  }

  lemma AdjustKeepsDelays(q: Queue, now: nat)
    requires DelaysOk(q) && 0 < now && q.base <= now && (q.base == 0 ==> q.list == [])
    ensures DelaysOk(Adjusted(q, now))
  {
    AdjustExact(q, now);
  }

  ghost predicate QueueOk(q: Queue) {
    DelaysOk(q) && (q.base == 0 ==> q.list == [])
  }

  lemma ScheduleKeepsDelays(s: State, id: TimerId, now: nat, delay: nat)
    requires LifeOk(s) && QueueOk(s.queue) && Held(s, id) && 0 < now && s.queue.base <= now
    ensures QueueOk(DoSchedule(s, id, now, delay).queue)
  {
    var t := Unlisted(s, id);
    assert s.timers[id].phase != Scheduled ==> !Listed(s.queue.list, id);
    assert QueueOk(t.queue) && !Listed(t.queue.list, id) by {
      UnlistedDelays(s.queue, id);
      UnlistedKeeps(s, id);
    }
    hide DelaysOk, Listed, LifeOk, Unlisted;
    AdjustKeepsDelays(t.queue, now);
    AdjustedLists(t.queue, now);
    InsertedDelays(Adjusted(t.queue, now), id, delay);
  }

  /** Every step, with a clock that reads more than zero and never goes back, keeps the delays right. */
  lemma StepKeepsDelays(s: State, a: Action)
    requires LifeOk(s) && QueueOk(s.queue) && Enabled(s, a) && Clocked(s, a)
    ensures QueueOk(Step(s, a).queue)
  {
    match a
    case Schedule(id, now, delay) => ScheduleKeepsDelays(s, id, now, delay);
    case Visit(now) => AdjustKeepsDelays(s.queue, now);
    case Cancel(id) => UnlistedDelays(s.queue, id);
    case CancelResumes(id) => UnlistedDelays(s.queue, id);
    case Free(id, _) => UnlistedDelays(s.queue, id);
    case FreeResumes(id) => UnlistedDelays(s.queue, id);
    case Fire(id) => UnlistedDelays(s.queue, id);
    case Create(id) =>
    case Done(id) =>
  }

  // ---------------------------------------------------------------- whole runs

  ghost predicate Run(states: seq<State>, actions: seq<Action>) {
    && |states| == |actions| + 1
    && Initial(states[0])
    && forall i :: 0 <= i < |actions| ==> Enabled(states[i], actions[i]) && states[i + 1] == Step(states[i], actions[i])
  }

  lemma {:induction false} RunKeepsLife(states: seq<State>, actions: seq<Action>, k: nat)
    requires Run(states, actions) && k < |states|
    ensures LifeOk(states[k])
    decreases k
  {
    if k > 0 {
      hide LifeOk, Enabled, Step, Initial;
      RunKeepsLife(states, actions, k - 1);
      StepKeepsLife(states[k - 1], actions[k - 1]);
    }
  }

  lemma {:induction false} RunKeepsDelays(states: seq<State>, actions: seq<Action>, k: nat)
    requires Run(states, actions) && k < |states|
    requires forall i :: 0 <= i < |actions| ==> Clocked(states[i], actions[i])
    ensures QueueOk(states[k].queue)
    decreases k
  {
    if k > 0 {
      hide LifeOk, Enabled, Step, Initial, QueueOk;
      RunKeepsDelays(states, actions, k - 1);
      RunKeepsLife(states, actions, k - 1);
      StepKeepsDelays(states[k - 1], actions[k - 1]);
    }
  }

  /** In every interleaving, a timer is listed exactly when it is scheduled, and its references are the
      user's, the list's and those of callbacks still running; so a timer that is listed
      or running has not been freed, and one that its user has freed never fires again. */
  lemma TimersLiveLongEnough(states: seq<State>, actions: seq<Action>, k: nat, id: TimerId)
    requires Run(states, actions) && k < |states|
    ensures var s := states[k];
      && (Listed(s.queue.list, id) ==> id in s.timers && s.timers[id].user)
      && (id in s.timers ==>
            && (Listed(s.queue.list, id) <==> s.timers[id].phase == Scheduled)
            && s.timers[id].refs ==
                 Count(s.timers[id].user) + Count(Listed(s.queue.list, id)) + s.timers[id].callbacks
            && s.timers[id].refs > 0)
  {
    RunKeepsLife(states, actions, k);
  }

  lemma {:induction false} HeadIsLeast(list: seq<Entry>, id: TimerId)
    requires Listed(list, id)
    ensures list[0].delta <= DueIn(list, id) && DueIn(list, list[0].id) == list[0].delta
  {
    ListedHead(list, id);
  }

  /** The last reading of the clock in a run. */
  function Clock(actions: seq<Action>): nat {
    if actions == [] then 0
    else
      var last := actions[|actions| - 1];
      if last.Schedule? || last.Visit? then last.now else Clock(actions[..|actions| - 1])
  }

  /** The deadline a timer was last scheduled for in a run. */
  function Asked(actions: seq<Action>, id: TimerId): Option<int> {
    if actions == [] then None
    else
      var last := actions[|actions| - 1];
      if last.Schedule? && last.id == id then Some(last.now + last.delay) else Asked(actions[..|actions| - 1], id)
  }

  lemma StepReads(s: State, a: Action)
    requires Enabled(s, a)
    ensures Step(s, a).queue.base == if a.Schedule? || a.Visit? then a.now else s.queue.base
    ensures Step(s, a).queue.deadline ==
            if a.Schedule? then s.queue.deadline[a.id := a.now + a.delay] else s.queue.deadline
  {
    hide Elapsed, Inserted, Removed;
  }

  /** The time base is the last reading, and the deadlines are those asked for. */
  lemma {:induction false} RunReads(states: seq<State>, actions: seq<Action>, k: nat, id: TimerId)
    requires Run(states, actions) && k < |states|
    ensures var q := states[k].queue;
      && q.base == Clock(actions[..k])
      && (if id in q.deadline then Some(q.deadline[id]) else None) == Asked(actions[..k], id)
    decreases k
  {
    if k > 0 {
      hide Enabled, Step, Initial;
      RunReads(states, actions, k - 1, id);
      StepReads(states[k - 1], actions[k - 1]);
      assert actions[..k][..k - 1] == actions[..k - 1];
    }
  }

  /** With a clock that reads more than zero and never goes back, no timer fires before the deadline it was
      last scheduled for. */
  lemma NeverEarly(states: seq<State>, actions: seq<Action>, k: nat, id: TimerId)
    requires Run(states, actions) && k < |states| && Enabled(states[k], Fire(id))
    requires forall i :: 0 <= i < |actions| ==> Clocked(states[i], actions[i])
    ensures Asked(actions[..k], id).Some? && Asked(actions[..k], id).value <= Clock(actions[..k])
  {
    RunKeepsDelays(states, actions, k);
    RunReads(states, actions, k, id);
    var list := states[k].queue.list;
    assert list[0].id == id;
    assert Listed(list, id);
  }

  /** The head's delta, for which the server's timeout is armed, is the least of the delays left until the
      deadlines of the listed timers, none of which is negative. */
  lemma ArmsForTheLeast(states: seq<State>, actions: seq<Action>, k: nat, id: TimerId)
    requires Run(states, actions) && k < |states| && Listed(states[k].queue.list, id)
    requires forall i :: 0 <= i < |actions| ==> Clocked(states[i], actions[i])
    ensures var head := states[k].queue.list[0]; var now := Clock(actions[..k]);
      && Asked(actions[..k], id).Some? && Asked(actions[..k], head.id).Some?
      && head.delta == Min0(Asked(actions[..k], head.id).value - now) <= Min0(Asked(actions[..k], id).value - now)
  {
    hide DueIn, Enabled, Step, Initial;
    RunKeepsDelays(states, actions, k);
    var list := states[k].queue.list;
    assert Listed(list, list[0].id) by { assert list[0].id == list[0].id; }
    RunReads(states, actions, k, id);
    RunReads(states, actions, k, list[0].id);
    HeadIsLeast(list, id);
  }

  /** A visit that finds nothing more to fire leaves no timer due at its last reading of the clock. */
  lemma NoneLeftDue(states: seq<State>, actions: seq<Action>, k: nat, id: TimerId)
    requires Run(states, actions) && k < |states| && Listed(states[k].queue.list, id)
    requires forall i :: 0 <= i < |actions| ==> Clocked(states[i], actions[i])
    requires !exists due :: Enabled(states[k], Fire(due))
    ensures Asked(actions[..k], id).Some? && Asked(actions[..k], id).value > Clock(actions[..k])
  {
    ArmsForTheLeast(states, actions, k, id);
    assert Listed(states[k].queue.list, id);
    var head := states[k].queue.list[0];
    assert !Enabled(states[k], Fire(head.id));
    hide Run, Asked, Clock, Listed, Step;
  }

  // ---------------------------------------------------------------- the walks over the list

  /** The list as the holder of the lock changes it. */
  class TimerList {
    var list: seq<Entry>
    var base: nat

    constructor ()
      ensures list == [] && base == 0
    {
      list := [];
      base := 0;
    }

    method AdjustNow(now: nat)
      modifies this
      ensures forall d :: Queue(list, base, d) == Adjusted(Queue(old(list), old(base), d), now)
    {
      hide Elapsed;
      if base != 0 && now > base {
        var left: nat := now - base;
        var i := 0;
        ghost var goal := Elapsed(list, left);
        assert list[..0] + goal == goal && list[0..] == list;
        while left > 0 && i < |list|
          invariant i <= |list| && base == old(base)
          invariant list[..i] + Elapsed(list[i..], left) == goal
          decreases |list| - i
        {
          ElapsedStep(list, i, left);
          if list[i].delta >= left {
            list := list[i := list[i].(delta := list[i].delta - left)];
            left := 0;
          } else {
            left := left - list[i].delta;
            list := list[i := list[i].(delta := 0)];
          }
          i := i + 1;
        }
        ElapsedDone(list, i, left);
      }
      base := now;
    }

    /** Finds the place of a timer due in `delay` and puts it there. */
    method Insert(id: TimerId, delay: nat)
      modifies this`list
      ensures list == Inserted(old(list), id, delay)
    {
      hide *;
      var i, before := 0, 0;
      ghost var goal := Inserted(list, id, delay);
      assert list[..0] + goal == goal && list[0..] == list;
      while i < |list| && before + list[i].delta < delay
        invariant i <= |list| && before <= delay && list == old(list)
        invariant list[..i] + Inserted(list[i..], id, delay - before) == goal
        decreases |list| - i
      {
        InsertedStep(list, i, id, delay - before);
        before := before + list[i].delta;
        i := i + 1;
      }
      if i == |list| {
        InsertedLast(list, id, delay - before);
        list := list + [Entry(id, delay - before)];
      } else {
        var next := list[i].(delta := list[i].delta - (delay - before));
        InsertedHere(list, i, id, delay - before);
        list := list[..i] + [Entry(id, delay - before)] + [next] + list[i + 1..];
      }
    }

    /** Takes a timer off; the one behind it takes over its delta. */
    method Remove(id: TimerId)
      modifies this`list
      ensures list == Removed(old(list), id)
    {
      hide Removed;
      var i := 0;
      ghost var goal := Removed(list, id);
      assert list[..0] + goal == goal && list[0..] == list;
      while i < |list| && list[i].id != id
        invariant i <= |list| && list == old(list)
        invariant list[..i] + Removed(list[i..], id) == goal
      {
        RemovedStep(list, i, id);
        i := i + 1;
      }
      RemovedHere(list, i, id);
      if i < |list| {
        if i + 1 < |list| {
          list := list[..i] + [list[i + 1].(delta := list[i + 1].delta + list[i].delta)] + list[i + 2..];
        } else {
          list := list[..i];
        }
      }
    }
  }

  lemma ElapsedStep(list: seq<Entry>, i: nat, left: nat)
    requires i < |list| && left > 0
    ensures var e := list[i];
      var changed := list[i := if e.delta >= left then e.(delta := e.delta - left) else e.(delta := 0)];
      var rest := if e.delta >= left then 0 else left - e.delta;
      list[..i] + Elapsed(list[i..], left) == changed[..i + 1] + Elapsed(changed[i + 1..], rest)
  {
    var e := list[i];
    var changed := list[i := if e.delta >= left then e.(delta := e.delta - left) else e.(delta := 0)];
    assert list[i..][1..] == list[i + 1..] == changed[i + 1..];
    assert changed[..i + 1] == list[..i] + [changed[i]];
  }

  lemma ElapsedDone(list: seq<Entry>, i: nat, left: nat)
    requires i <= |list| && (left == 0 || i == |list|)
    ensures list[..i] + Elapsed(list[i..], left) == list
  {
    assert list[..i] + list[i..] == list;
  }

  lemma RemovedStep(list: seq<Entry>, i: nat, id: TimerId)
    requires i < |list| && list[i].id != id
    ensures list[..i] + Removed(list[i..], id) == list[..i + 1] + Removed(list[i + 1..], id)
  {
    assert list[i..][1..] == list[i + 1..];
    assert list[..i] + [list[i]] == list[..i + 1];
  }

  lemma RemovedHere(list: seq<Entry>, i: nat, id: TimerId)
    requires i <= |list| && (i < |list| ==> list[i].id == id)
    ensures list[..i] + Removed(list[i..], id) ==
      if i + 1 < |list| then list[..i] + [list[i + 1].(delta := list[i + 1].delta + list[i].delta)] + list[i + 2..]
      else list[..i]
  {
    if i + 1 < |list| {
      assert list[i..][2..] == list[i + 2..];
    }
  }

  lemma InsertedStep(list: seq<Entry>, i: nat, id: TimerId, delay: nat)
    requires i < |list| && list[i].delta < delay
    ensures list[..i] + Inserted(list[i..], id, delay) ==
            list[..i + 1] + Inserted(list[i + 1..], id, delay - list[i].delta)
  {
    assert list[i..][1..] == list[i + 1..];
    assert list[..i + 1] == list[..i] + [list[i]];
  }

  lemma InsertedLast(list: seq<Entry>, id: TimerId, delay: nat)
    ensures list[..|list|] + Inserted(list[|list|..], id, delay) == list + [Entry(id, delay)]
  {
  }

  lemma InsertedHere(list: seq<Entry>, i: nat, id: TimerId, delay: nat)
    requires i < |list| && list[i].delta >= delay
    ensures list[..i] + Inserted(list[i..], id, delay) ==
            list[..i] + [Entry(id, delay)] + [list[i].(delta := list[i].delta - delay)] + list[i + 1..]
  {
    assert list[i..][1..] == list[i + 1..];
  }
}
