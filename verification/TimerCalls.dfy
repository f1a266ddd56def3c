/** What becomes of a timer, read off the requests of a run alone; and the calls on timers over the list, as steps of
    the machine. */
module TimerCalls {
  import opened Options
  import opened Timers

  predicate Of(a: Action, id: TimerId) {
    !a.Visit? && a.id == id
  }

  /** The phase a request leaves a timer in. A cancel or free waits while the callback runs, except that a callback may
      free its own timer. */
  function NextPhase(p: Option<Phase>, a: Action): Option<Phase> {
    match a
    case Create(_) => Some(Idle)
    case Schedule(_, _, _) => Some(Scheduled)
    case Cancel(_) => if p == Some(Running) then Some(Blocked) else Some(Idle)
    case CancelResumes(_) => Some(Idle)
    case Free(_, inCallback) => if p == Some(Running) && !inCallback then Some(Blocked) else Some(Deleted)
    case FreeResumes(_) => Some(Deleted)
    case Fire(_) => Some(Running)
    case Done(_) => if p == Some(Running) then Some(Idle) else p
    case Visit(_) => p
  }

  function PhaseOf(actions: seq<Action>, id: TimerId): Option<Phase> {
    if actions == [] then None
    else
      var front, a := actions[..|actions| - 1], actions[|actions| - 1];
      if Of(a, id) then NextPhase(PhaseOf(front, id), a) else PhaseOf(front, id)
  }

  function PhaseIn(s: State, id: TimerId): Option<Phase> {
    if id in s.timers then Some(s.timers[id].phase) else None
  }

  /** The state shows the phase; a timer that is gone was deleted. */
  predicate Shows(s: State, id: TimerId, p: Option<Phase>) {
    PhaseIn(s, id) == p || (id !in s.timers && p == Some(Deleted))
  }

  lemma CancelShows(s: State, id: TimerId)
    requires LifeOk(s) && Held(s, id)
    ensures PhaseIn(DoCancel(s, id), id) == Some(Idle)
    ensures forall k :: k != id ==> PhaseIn(DoCancel(s, id), k) == PhaseIn(s, k)
  {
    hide Removed, Listed;
    assert s.timers[id].phase == Scheduled ==> s.timers[id].refs >= 2;
  }

  lemma FreeShows(s: State, id: TimerId)
    requires LifeOk(s) && Held(s, id)
    ensures Shows(DoFree(s, id), id, Some(Deleted))
    ensures forall k :: k != id ==> PhaseIn(DoFree(s, id), k) == PhaseIn(s, k)
  {
    hide Removed, Listed;
    assert s.timers[id].phase == Scheduled ==> s.timers[id].refs >= 2;
  }

  lemma FireShows(s: State, id: TimerId)
    requires LifeOk(s) && Enabled(s, Fire(id))
    ensures PhaseIn(Step(s, Fire(id)), id) == Some(Running)
    ensures forall k :: k != id ==> PhaseIn(Step(s, Fire(id)), k) == PhaseIn(s, k)
  {
    FireKeeps(s, id);
    hide Removed, LifeOk;
  }

  lemma DoneShows(s: State, id: TimerId)
    requires LifeOk(s) && Enabled(s, Done(id))
    ensures Shows(Step(s, Done(id)), id, NextPhase(PhaseIn(s, id), Done(id)))
    ensures forall k :: k != id ==> PhaseIn(Step(s, Done(id)), k) == PhaseIn(s, k)
  {
    hide Listed;
  }

  /** A step leaves the timer it is about in the phase of the request, and no other timer changes phase. */
  lemma StepShows(s: State, a: Action, id: TimerId, p: Option<Phase>)
    requires LifeOk(s) && Enabled(s, a) && Shows(s, id, p)
    ensures Shows(Step(s, a), id, if Of(a, id) then NextPhase(p, a) else p)
  {
    hide LifeOk, Removed, Inserted, Adjusted, DoCancel, DoFree;
    match a
    case Cancel(k) =>
      if s.timers[k].phase != Running {
        CancelShows(s, k);
      }
    case CancelResumes(k) =>
      var t := s.(timers := s.timers[k := s.timers[k].(cancelling := s.timers[k].cancelling - 1)]);
      LifeOkLess(s, k);
      CancelShows(t, k);
      assert forall j :: PhaseIn(t, j) == PhaseIn(s, j);
    case Free(k, inCallback) =>
      if s.timers[k].phase != Running || inCallback {
        FreeShows(s, k);
      }
    case FreeResumes(k) => FreeShows(s, k);
    case Fire(k) => FireShows(s, k);
    case Done(k) => DoneShows(s, k);
    case Create(k) =>
    case Schedule(k, now, delay) =>
    case Visit(now) =>
  }

  lemma LifeOkLess(s: State, id: TimerId)
    requires LifeOk(s) && id in s.timers && s.timers[id].cancelling > 0
    ensures LifeOk(s.(timers := s.timers[id := s.timers[id].(cancelling := s.timers[id].cancelling - 1)]))
  {
    hide Listed, DistinctIds;
  }

  /** In every run the phase of a timer is what the requests say. */
  lemma {:induction false} RunShows(states: seq<State>, actions: seq<Action>, k: nat, id: TimerId)
    requires Run(states, actions) && k < |states|
    ensures Shows(states[k], id, PhaseOf(actions[..k], id))
    decreases k
  {
    if k > 0 {
      hide LifeOk, Enabled, Step;
      RunShows(states, actions, k - 1, id);
      RunKeepsLife(states, actions, k - 1);
      StepShows(states[k - 1], actions[k - 1], id, PhaseOf(actions[..k - 1], id));
      assert actions[..k][..k - 1] == actions[..k - 1];
    }
  }

  /** The request at `i` takes the timer off the list if it is there: it fires, or a cancel or free takes effect. */
  predicate Stops(actions: seq<Action>, i: nat, id: TimerId)
    requires i < |actions|
  {
    var a := actions[i];
    var running := PhaseOf(actions[..i], id) == Some(Running);
    Of(a, id) &&
    (a.Fire? || a.CancelResumes? || a.FreeResumes? || (a.Cancel? && !running) || (a.Free? && (!running || a.inCallback)))
  }

  /** A request to schedule the timer has come that nothing has stopped since. */
  ghost predicate Pending(actions: seq<Action>, k: nat, id: TimerId)
    requires k <= |actions|
  {
    exists j :: 0 <= j < k && actions[j].Schedule? && actions[j].id == id &&
      forall i :: j < i < k ==> !Stops(actions, i, id)
  }

  lemma PendingStep(actions: seq<Action>, k: nat, id: TimerId)
    requires k < |actions|
    ensures Pending(actions, k + 1, id) <==>
      (actions[k].Schedule? && actions[k].id == id) || (Pending(actions, k, id) && !Stops(actions, k, id))
  {
    hide Stops;
    if Pending(actions, k, id) && !Stops(actions, k, id) {
      var j :| 0 <= j < k && actions[j].Schedule? && actions[j].id == id && forall i :: j < i < k ==> !Stops(actions, i, id);
      assert forall i :: j < i < k + 1 ==> !Stops(actions, i, id);
    }
  }

  /** In every run, a timer is on the list if and only if the last request that matters to it is one to schedule it; no
      cancelled timer can fire, and no scheduled one is dropped. */
  lemma {:induction false} ListedExactly(states: seq<State>, actions: seq<Action>, k: nat, id: TimerId)
    requires Run(states, actions) && k < |states|
    ensures Listed(states[k].queue.list, id) <==> Pending(actions, k, id)
    ensures Enabled(states[k], Fire(id)) ==> Pending(actions, k, id)
  {
    hide LifeOk, Step, Stops;
    RunShows(states, actions, k, id);
    TimersLiveLongEnough(states, actions, k, id);
    PendingIsPhase(states, actions, k, id);
    if Enabled(states[k], Fire(id)) {
      assert states[k].queue.list[0].id == id;
    }
  }

  lemma {:induction false} PendingIsPhase(states: seq<State>, actions: seq<Action>, k: nat, id: TimerId)
    requires Run(states, actions) && k < |states|
    ensures Pending(actions, k, id) <==> PhaseOf(actions[..k], id) == Some(Scheduled)
    decreases k
  {
    if k > 0 {
      hide LifeOk, Step, Pending;
      PendingIsPhase(states, actions, k - 1, id);
      PendingStep(actions, k - 1, id);
      assert actions[..k][..k - 1] == actions[..k - 1];
      RunShows(states, actions, k - 1, id);
      NewIsNotPending(states[k - 1], actions[k - 1], id, PhaseOf(actions[..k - 1], id));
    }
  }

  /** A timer that is scheduled is not created, and one that is freed or being called does not count as scheduled. */
  lemma NewIsNotPending(s: State, a: Action, id: TimerId, p: Option<Phase>)
    requires Enabled(s, a) && Shows(s, id, p)
    ensures Of(a, id) && p == Some(Scheduled) ==> !a.Create?
  {
  }

  /** The timer of a request is off the list once a cancel or free has taken effect. */
  lemma StoppedIsOff(states: seq<State>, actions: seq<Action>, j: nat, k: nat, id: TimerId)
    requires Run(states, actions) && j < k < |states| && Stops(actions, j, id)
    requires forall i :: j < i < k ==> !(actions[i].Schedule? && actions[i].id == id)
    ensures !Listed(states[k].queue.list, id) && !Enabled(states[k], Fire(id))
  {
    hide Stops, Enabled, Step;
    ListedExactly(states, actions, k, id);
    if Pending(actions, k, id) {
      var m :| 0 <= m < k && actions[m].Schedule? && actions[m].id == id && forall i :: m < i < k ==> !Stops(actions, i, id);
      ScheduleStopsNot(actions, j, id);
      assert false;
    }
  }

  lemma ScheduleStopsNot(actions: seq<Action>, i: nat, id: TimerId)
    requires i < |actions| && Stops(actions, i, id)
    ensures !actions[i].Schedule?
  {
  }

  // ---------------------------------------------------------------- the calls

  /** The list and the timers, as the holder of the lock changes them. */
  class Service {
    const wheel: TimerList
    var timers: map<TimerId, Timer>

    constructor ()
      ensures fresh(wheel) && Is(State(Queue([], 0, map[]), map[]))
    {
      wheel := new TimerList();
      timers := map[];
    }

    ghost predicate Is(s: State)
      reads this, wheel
    {
      s.queue.list == wheel.list && s.queue.base == wheel.base && s.timers == timers
    }

    /** Takes a scheduled timer off the list. */
    method CancelLocked(id: TimerId, ghost s: State) returns (was: bool)
      requires Is(s) && id in s.timers
      modifies this, wheel
      ensures Is(Unlisted(s, id)) && was == (s.timers[id].phase == Scheduled)
    {
      was := timers[id].phase == Scheduled;
      if was {
        wheel.Remove(id);
        timers := timers[id := timers[id].(phase := Idle)];
      }
    }

    method Drop(id: TimerId, ghost s: State)
      requires Is(s) && id in s.timers
      modifies this
      ensures Is(s.(timers := Released(s.timers, id)))
    {
      if timers[id].refs <= 1 {
        timers := timers - {id};
      } else {
        timers := timers[id := timers[id].(refs := timers[id].refs - 1)];
      }
    }

    /** Schedules a timer, anew if it was scheduled. */
    method ScheduleTimer(id: TimerId, now: nat, delay: nat, ghost s: State)
      requires Is(s) && Enabled(s, Schedule(id, now, delay))
      modifies this, wheel
      ensures Is(Step(s, Schedule(id, now, delay)))
    {
      hide Removed, Inserted, Adjusted;
      var was := CancelLocked(id, s);
      ghost var t := Unlisted(s, id);
      wheel.AdjustNow(now);
      assert Queue(wheel.list, wheel.base, t.queue.deadline) == Adjusted(t.queue, now);
      wheel.Insert(id, delay);
      var timer := timers[id];
      timers := timers[id := timer.(phase := Scheduled, refs := if was then timer.refs else timer.refs + 1)];
    }

    /** Cancels a timer whose callback is not running; `a` is the cancel, or its end after it has waited. */
    method CancelTimer(id: TimerId, resumes: bool, ghost s: State)
      requires Is(s) && Enabled(s, if resumes then CancelResumes(id) else Cancel(id))
      requires !resumes ==> s.timers[id].phase != Running
      modifies this, wheel
      ensures Is(Step(s, if resumes then CancelResumes(id) else Cancel(id)))
    {
      hide Removed;
      ghost var t := s;
      if resumes {
        timers := timers[id := timers[id].(cancelling := timers[id].cancelling - 1)];
        t := s.(timers := timers);
      }
      var was := CancelLocked(id, t);
      timers := timers[id := timers[id].(phase := Idle)];
      if was {
        Drop(id, State(Unlisted(t, id).queue, timers));
      }
    }

    /** Frees a timer whose callback is not running, or from its own callback. */
    method FreeTimer(id: TimerId, resumes: bool, inCallback: bool, ghost s: State)
      requires Is(s) && LifeOk(s) && Enabled(s, if resumes then FreeResumes(id) else Free(id, inCallback))
      requires !resumes ==> s.timers[id].phase != Running || inCallback
      modifies this, wheel
      ensures Is(Step(s, if resumes then FreeResumes(id) else Free(id, inCallback)))
    {
      assert s.timers[id].phase == Scheduled ==> s.timers[id].refs >= 2;
      hide Removed, LifeOk;
      var was := CancelLocked(id, s);
      ghost var t := Unlisted(s, id);
      if was {
        Drop(id, t);
        t := t.(timers := timers);
      }
      timers := timers[id := timers[id].(phase := Deleted, user := false, freeing := false)];
      Drop(id, t.(timers := timers));
    }

    /** Takes the head off if it is due, for its callback. */
    method FireNext(ghost s: State) returns (id: Option<TimerId>)
      requires Is(s) && LifeOk(s)
      modifies this, wheel
      ensures id.None? ==> Is(s) && forall k :: !Enabled(s, Fire(k))
      ensures id.Some? ==> Enabled(s, Fire(id.value)) && Is(Step(s, Fire(id.value)))
    {
      hide Removed;
      if wheel.list == [] || wheel.list[0].delta != 0 {
        return None;
      }
      var head := wheel.list[0].id;
      FireKeeps(s, head);
      hide LifeOk;
      var was := CancelLocked(head, s);
      timers := timers[head := timers[head].(phase := Running, callbacks := timers[head].callbacks + 1)];
      return Some(head);
    }
  }
}
