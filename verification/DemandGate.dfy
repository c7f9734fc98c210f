/** The gate that opens the microphone while some session records, and closes it 400 ms after the last one stops. */
module DemandGate {
  import opened SessionTracker

  const GRACE_MS := 400

  // ----- the gate over every run of evaluations -----

  datatype Gate = Gate(requested: bool, deadline: nat)

  /** Something that moves the gate: an evaluation, with what it reads, or the clearing of every session. */
  datatype Event = Evaluated(demand: bool, count: nat, now: nat) | Cleared

  function Moved(g: Gate, e: Event): Gate {
    match e
    case Cleared => g.(deadline := 0)
    case Evaluated(demand, count, now) =>
      if !demand || count > 0 then Gate(true, 0)
      else if !g.requested then Gate(false, 0)
      else if g.deadline == 0 then Gate(true, now + GRACE_MS)
      else if now >= g.deadline then Gate(false, 0)
      else g
  }

  function After(events: seq<Event>): Gate {
    if events == [] then Gate(false, 0) else Moved(After(events[..|events| - 1]), events[|events| - 1])
  }

  /** Ticks never go back. */
  ghost predicate Timed(events: seq<Event>) {
    forall i, j :: 0 <= i < j < |events| && events[i].Evaluated? && events[j].Evaluated? ==> events[i].now <= events[j].now
  }

  predicate Quiet(e: Event) {
    e.Evaluated? && e.demand && e.count == 0
  }

  ghost predicate QuietFrom(events: seq<Event>, i: int) {
    0 <= i < |events| && forall k :: i <= k < |events| ==> Quiet(events[k])
  }

  /** An armed deadline was set 400 ms ahead by an evaluation since which everything has been quiet. */
  ghost predicate Armed(events: seq<Event>, i: int) {
    QuietFrom(events, i) && events[i].now + GRACE_MS == After(events).deadline
  }

  lemma {:induction false} ArmedBy(events: seq<Event>)
    requires After(events).deadline != 0
    ensures After(events).requested && exists i :: Armed(events, i)
  {
    var n := |events| - 1;
    var before, e := events[..n], events[n];
    if After(before).deadline != 0 {
      ArmedBy(before);
      var i :| Armed(before, i);
      assert forall k :: i <= k < n ==> events[k] == before[k];
      assert Armed(events, i);
    } else {
      assert Armed(events, n);
    }
  }

  /** The gate only closes in demand mode with nothing active, and after at least 400 ms during which every
      evaluation was in demand mode and saw nothing active. */
  lemma ClosesOnlyAfterQuiet(events: seq<Event>)
    requires events != [] && After(events[..|events| - 1]).requested && !After(events).requested
    ensures exists i :: QuietFrom(events, i) && events[i].now + GRACE_MS <= events[|events| - 1].now
  {
    hide After, Moved;
    var n := |events| - 1;
    var before := events[..n];
    ClosingMove(events);
    ArmedBy(before);
    var i :| Armed(before, i);
    assert forall k :: i <= k < n ==> events[k] == before[k];
    assert QuietFrom(events, i);
  }

  lemma ClosingMove(events: seq<Event>)
    requires events != [] && After(events[..|events| - 1]).requested && !After(events).requested
    ensures var last := events[|events| - 1];
            Quiet(last) && 0 < After(events[..|events| - 1]).deadline <= last.now
  {
  }

  /** b is the first evaluation after event a. */
  ghost predicate NextEvaluation(events: seq<Event>, a: nat, b: nat) {
    && a < b < |events| && events[b].Evaluated?
    && forall c :: a < c < b ==> !events[c].Evaluated?
  }

  /** So it never closes within 400 ms of activity: what an evaluation saw lasts until the next evaluation, and
      400 ms run from that one. */
  lemma NeverClosesNearActivity(events: seq<Event>, a: nat, b: nat)
    requires Timed(events) && events != [] && After(events[..|events| - 1]).requested && !After(events).requested
    requires a < |events| && events[a].Evaluated? && (events[a].count > 0 || !events[a].demand)
    ensures a < |events| - 1
    ensures NextEvaluation(events, a, b) ==> events[b].now + GRACE_MS <= events[|events| - 1].now
  {
    ClosesOnlyAfterQuiet(events);
    var i :| QuietFrom(events, i) && events[i].now + GRACE_MS <= events[|events| - 1].now;
    QuietHas(events, i, a);
    QuietHas(events, i, |events| - 1);
    assert Quiet(events[i]);
  }

  lemma QuietHas(events: seq<Event>, i: int, a: nat)
    requires QuietFrom(events, i) && a < |events|
    ensures a >= i ==> Quiet(events[a])
  {
  }

  /** And it does close: once two evaluations at least 400 ms apart, and all between them, saw demand mode
      and nothing active, the microphone is not requested. */
  lemma {:induction false} ClosesWhenQuiet(events: seq<Event>, i: nat)
    requires Timed(events) && QuietFrom(events, i)
    ensures var g := After(events); !g.requested || (0 < g.deadline <= events[i].now + GRACE_MS)
    ensures i < |events| - 1 && events[|events| - 1].now >= events[i].now + GRACE_MS ==> !After(events).requested
    decreases |events|
  {
    var n := |events| - 1;
    assert Quiet(events[n]);
    if i < n {
      var before := events[..n];
      assert forall k :: i <= k < n ==> before[k] == events[k];
      ClosesWhenQuiet(before, i);
    } else {
      Freshly(events);
    }
  }

  lemma Freshly(events: seq<Event>)
    requires Timed(events) && events != [] && Quiet(events[|events| - 1])
    ensures var g := After(events); !g.requested || (0 < g.deadline <= events[|events| - 1].now + GRACE_MS)
  {
    var n := |events| - 1;
    var before := events[..n];
    if After(before).deadline != 0 {
      ArmedBy(before);
      var i :| Armed(before, i);
      assert before[i] == events[i] && Quiet(before[i]);
    }
  }

  // ----- how long the gate is held open -----

  /** Open, and not to be closed before tick T. */
  predicate Held(g: Gate, T: nat) {
    g.requested && (g.deadline == 0 || g.deadline >= T)
  }

  /** Every evaluation from event n on was made between these ticks. */
  ghost predicate Within(events: seq<Event>, n: nat, from: nat, to: nat) {
    forall i :: n <= i < |events| && events[i].Evaluated? ==> from <= events[i].now <= to
  }

  /** A gate held until T, with T at most 400 ms ahead, stays so unless T has come. */
  lemma {:induction false} HeldOrLate(events: seq<Event>, more: seq<Event>, T: nat, from: nat, to: nat)
    requires Within(more, 0, from, to) && Held(After(events), T) && T <= from + GRACE_MS
    ensures Held(After(events + more), T) || to >= T
  {
    hide After;
    if more == [] {
      assert events + more == events;
    } else {
      var n := |more| - 1;
      HeldOrLate(events, more[..n], T, from, to);
      assert events + more == (events + more[..n]) + [more[n]];
      AfterEvent(events + more[..n], more[n]);
    }
  }

  /** An evaluation that saw activity, or demand mode off. */
  predicate Seen(e: Event) {
    e.Evaluated? && (e.count > 0 || !e.demand)
  }

  ghost predicate Saw(more: seq<Event>) {
    exists e :: 0 <= e < |more| && Seen(more[e])
  }

  /** However short the activity was, it holds the gate for 400 ms. */
  lemma SeenHolds(events: seq<Event>, more: seq<Event>, e: nat, from: nat, to: nat)
    requires Within(more, 0, from, to) && e < |more| && Seen(more[e])
    ensures Held(After(events + more), from + GRACE_MS) || to >= from + GRACE_MS
  {
    hide After;
    var upTo, rest := events + more[..e] + [more[e]], more[e + 1..];
    AfterEvent(events + more[..e], more[e]);
    assert forall i :: 0 <= i < |rest| ==> rest[i] == more[e + 1 + i];
    HeldOrLate(upTo, rest, from + GRACE_MS, from, to);
    assert upTo + rest == events + more;
  }

  /** Opening takes an evaluation that saw activity or demand mode off. */
  lemma {:induction false} OpenedBySeen(events: seq<Event>, more: seq<Event>)
    requires !After(events).requested && After(events + more).requested
    ensures Saw(more)
  {
    hide After;
    assert more == [] ==> events + more == events;
    if more != [] {
      var n := |more| - 1;
      assert events + more == (events + more[..n]) + [more[n]];
      AfterEvent(events + more[..n], more[n]);
      if After(events + more[..n]).requested {
        OpenedBySeen(events, more[..n]);
        var e :| 0 <= e < n && Seen(more[..n][e]);
        assert Seen(more[e]);
      } else {
        assert Seen(more[n]);
      }
    }
  }

  /** Closing takes an evaluation in demand mode that sees nothing active. */
  lemma {:induction false} ClosedByQuiet(events: seq<Event>, more: seq<Event>)
    requires After(events).requested && !After(events + more).requested
    ensures exists e :: 0 <= e < |more| && Quiet(more[e])
  {
    hide After;
    assert more == [] ==> events + more == events;
    if more != [] {
      var n := |more| - 1;
      assert events + more == (events + more[..n]) + [more[n]];
      AfterEvent(events + more[..n], more[n]);
      if !After(events + more[..n]).requested {
        ClosedByQuiet(events, more[..n]);
        var e :| 0 <= e < n && Quiet(more[..n][e]);
        assert Quiet(more[e]);
      } else {
        assert Quiet(more[n]);
      }
    }
  }

  /** One quiet evaluation after activity arms the deadline. */
  lemma ArmsAfter(events: seq<Event>, e: Event)
    ensures Quiet(e) && After(events) == Gate(true, 0) ==> After(events + [e]) == Gate(true, e.now + GRACE_MS)
  {
    hide After;
    AfterEvent(events, e);
  }

  lemma AfterEvent(events: seq<Event>, e: Event)
    ensures After(events + [e]) == Moved(After(events), e)
  {
    assert (events + [e])[..|events|] == events;
  }

  // ----- a monitor that could not start -----

  /** The gate after these evaluations when a monitor that could not start has opened it. */
  function AfterOpen(modes: seq<Event>): Gate {
    if modes == [] then Gate(true, 0) else Moved(AfterOpen(modes[..|modes| - 1]), modes[|modes| - 1])
  }

  /** As if demand mode had been off at the start. */
  lemma {:induction false} OpenAsIfOff(modes: seq<Event>)
    ensures AfterOpen(modes) == After([Evaluated(false, 0, 0)] + modes)
  {
    hide After;
    var off := Evaluated(false, 0, 0);
    if modes == [] {
      AfterEvent([], off);
      assert [off] + modes == [] + [off];
    } else {
      var n := |modes| - 1;
      OpenAsIfOff(modes[..n]);
      AfterEvent([off] + modes[..n], modes[n]);
      assert [off] + modes == [off] + modes[..n] + [modes[n]];
    }
  }

  /** Two evaluations at least 400 ms apart, these and all between them in demand mode with nothing active. */
  ghost predicate QuietStretch(events: seq<Event>, i: int, j: int) {
    && 0 <= i <= j < |events| && QuietFrom(events[..j + 1], i)
    && events[i].now + GRACE_MS <= events[j].now
  }

  /** Only changes of mode are evaluated then, with no session tracked. The gate stays open through all of them
      exactly as long as no two in demand mode, with none out of demand mode between, are 400 ms apart. */
  lemma FailedOpenStaysOpenIff(modes: seq<Event>)
    requires Timed(modes) && forall i :: 0 <= i < |modes| ==> modes[i].Evaluated? && modes[i].count == 0
    ensures (forall n :: 0 <= n <= |modes| ==> AfterOpen(modes[..n]).requested)
            <==> !exists i, j :: QuietStretch(modes, i, j)
  {
    hide AfterOpen;
    if i, j :| QuietStretch(modes, i, j) {
      StretchCloses(modes[..j + 1], i);
    } else {
      forall n | 0 <= n <= |modes| ensures AfterOpen(modes[..n]).requested {
        OpenWithoutStretch(modes, n);
      }
    }
  }

  lemma StretchCloses(modes: seq<Event>, i: int)
    requires Timed(modes) && QuietFrom(modes, i) && modes[i].now + GRACE_MS <= modes[|modes| - 1].now
    ensures !AfterOpen(modes).requested
  {
    hide After;
    OpenAsIfOff(modes);
    var events := [Evaluated(false, 0, 0)] + modes;
    assert forall k :: 0 < k < |events| ==> events[k] == modes[k - 1];
    assert Quiet(modes[i]) && Quiet(modes[|modes| - 1]);
    ClosesWhenQuiet(events, i + 1);
  }

  lemma {:induction false} OpenWithoutStretch(modes: seq<Event>, n: nat)
    requires n <= |modes| && !exists i, j :: QuietStretch(modes, i, j)
    ensures AfterOpen(modes[..n]).requested
  {
    if n > 0 {
      OpenWithoutStretch(modes, n - 1);
      if !AfterOpen(modes[..n]).requested { ClosedByStretch(modes, n - 1); }
    }
  }

  lemma ClosedByStretch(modes: seq<Event>, j: nat)
    requires j < |modes| && AfterOpen(modes[..j]).requested && !AfterOpen(modes[..j + 1]).requested
    ensures exists i :: QuietStretch(modes, i, j)
  {
    hide After, AfterOpen;
    var off, upTo := Evaluated(false, 0, 0), modes[..j + 1];
    var events := [off] + upTo;
    assert events[..j + 1] == [off] + modes[..j];
    OpenAsIfOff(upTo);
    OpenAsIfOff(modes[..j]);
    ClosesOnlyAfterQuiet(events);
    var i :| QuietFrom(events, i) && events[i].now + GRACE_MS <= events[j + 1].now;
    assert Quiet(events[i]);
    assert forall k :: i - 1 <= k <= j ==> upTo[k] == events[k + 1];
    assert QuietStretch(modes, i - 1, j);
  }

  /** A change of mode evaluated twice in demand mode, 400 ms apart, closes what failed open. */
  lemma FailedOpenCloses(now: nat)
    ensures !AfterOpen([Evaluated(true, 0, now), Evaluated(true, 0, now + GRACE_MS)]).requested
  {
    var modes := [Evaluated(true, 0, now), Evaluated(true, 0, now + GRACE_MS)];
    assert forall k :: 0 <= k < 2 ==> Quiet(modes[k]);
    StretchCloses(modes, 0);
  }

  // ----- the monitor that drives it -----

  datatype Observer = Observer(id: nat, key: string)

  datatype Source = NoSource | Register | Callback | Reconcile | Disconnected

  /** What an evaluation reads besides the sessions: the mode, which is stored without the lock, and the tick. */
  datatype Reading = Reading(demand: bool, now: nat)

  function EvaluatedAt(r: Reading, count: nat): Event {
    Evaluated(r.demand, count, r.now)
  }

  /** The evaluation that follows a change of one session's state. */
  function StateEvents(states: map<string, Activity>, key: string, a: Activity, r: Reading): seq<Event> {
    if key in states && states[key] == a then [] else [EvaluatedAt(r, |ActiveKeys(states[key := a])|)]
  }

  /** The evaluations that follow what an observer has seen: a pulse first, then the present state. */
  function ObserverEvents(states: map<string, Activity>, key: string, sawActive: bool, a: Activity, pulse: Reading,
                          r: Reading): seq<Event> {
    if sawActive && a != Active
    then StateEvents(states, key, Active, pulse) + StateEvents(states[key := Active], key, a, r)
    else StateEvents(states, key, a, r)
  }

  lemma LastObserved(states: map<string, Activity>, key: string, sawActive: bool, a: Activity, pulse: Reading, r: Reading)
    requires pulse.now <= r.now
    ensures var e := ObserverEvents(states, key, sawActive, a, pulse, r);
            && Within(e, 0, pulse.now, r.now) && Timed(e) && (forall i :: 0 <= i < |e| ==> e[i].Evaluated?) && (e == [] ==> states[key := a] == states)
            && (e != [] ==> e[|e| - 1] == EvaluatedAt(r, |ActiveKeys(states[key := a])|))
            && (sawActive || a == Active ==> |ActiveKeys(states)| > 0 || Saw(e))
  {
    SameState(states, key, a);
    SameState(states, key, Active);
    assert states[key := Active][key := a] == states[key := a];
    ActiveCounts(states[key := Active], key);
    if states[key := Active] == states {
      ActiveCounts(states, key);
    } else if sawActive || a == Active {
      assert Seen(ObserverEvents(states, key, sawActive, a, pulse, r)[0]);
    }
  }

  lemma SameState(states: map<string, Activity>, key: string, a: Activity)
    ensures (key in states && states[key] == a) <==> states[key := a] == states
  {
    assert states[key := a][key] == a;
  }

  class MicUsageMonitor {
    const tracker: MicSessionStateTracker
    var sessions: seq<Observer>
    var deadline: nat
    var requested: bool
    var stopping: bool
    var activeMetric: nat
    var trackedMetric: nat
    var corrections: nat
    ghost var events: seq<Event>

    /** Between locked sections: the counts other threads read are current, an active session means the
        microphone is requested and no closing deadline is armed, and the gate is what the run of evaluations
        makes it. */
    ghost predicate Valid()
      reads this, tracker
    {
      && tracker.Valid()
      && activeMetric == tracker.activeCount && trackedMetric == |tracker.states|
      && (tracker.activeCount > 0 ==> requested && deadline == 0)
      && After(events) == Gate(requested, deadline)
    }

    /** Every observer has its own tracked key and every tracked key its observer. */
    ghost predicate Paired()
      reads this, tracker
    {
      Matched(sessions, tracker.states)
    }

    ghost function View(): Tracked
      reads this, tracker
    {
      Tracked(sessions, tracker.states, stopping)
    }

    constructor ()
      ensures Valid() && Paired() && tracker.states == map[] && sessions == [] && !requested && !stopping && events == [] && fresh(tracker)
      ensures tracker.activeCount == 0 && deadline == 0
    {
      tracker := new MicSessionStateTracker();
      sessions, deadline, requested, stopping := [], 0, false, false;
      activeMetric, trackedMetric, corrections, events := 0, 0, 0, [];
    }

    method SetMicRequested(value: bool)
      modifies this`requested
      ensures requested == value
    {
      requested := value;
    }

    method EvaluateRequestedState(r: Reading)
      modifies this`deadline, this`requested, this`events
      requires After(events) == Gate(requested, deadline)
      ensures events == old(events) + [EvaluatedAt(r, tracker.activeCount)]
      ensures After(events) == Gate(requested, deadline)
      ensures tracker.activeCount > 0 ==> requested && deadline == 0
    {
      ghost var e := EvaluatedAt(r, tracker.activeCount);
      assert (events + [e])[..|events|] == events;
      events := events + [e];
      if !r.demand {
        deadline := 0;
        SetMicRequested(true);
        return;
      }
      if tracker.activeCount > 0 {
        deadline := 0;
        SetMicRequested(true);
        return;
      }
      if !requested {
        deadline := 0;
        return;
      }
      if deadline == 0 {
        deadline := r.now + GRACE_MS;
        return;
      }
      if r.now >= deadline {
        deadline := 0;
        SetMicRequested(false);
      }
    }

    method SyncSessionMetrics()
      modifies this`activeMetric, this`trackedMetric
      ensures activeMetric == tracker.activeCount && trackedMetric == |tracker.states|
    {
      activeMetric := tracker.activeCount;
      trackedMetric := |tracker.states|;
    }

    /** One tracker update with what must follow it under the same lock: a change is always evaluated. */
    method ApplyState(key: string, a: Activity, r: Reading) returns (changed: bool)
      requires Valid()
      modifies this`deadline, this`requested, this`events, this`activeMetric, this`trackedMetric, tracker
      ensures Valid() && tracker.states == old(tracker.states)[key := a]
      ensures changed <==> tracker.states != old(tracker.states)
      ensures events == old(events) + StateEvents(old(tracker.states), key, a, r)
      ensures a == Active ==> requested && deadline == 0
      ensures old(requested && deadline == 0) ==> requested && (deadline == 0 || deadline == r.now + GRACE_MS)
      ensures old(tracker.activeCount) > 0 && tracker.activeCount == 0 && r.demand ==>
                requested && deadline == r.now + GRACE_MS
    {
      hide After, ActiveKeys;
      ghost var states := tracker.states;
      var result := tracker.Update(key, a);
      if a == Active { ActiveCounts(tracker.states, key); }
      changed := result.stateChanged;
      SameState(states, key, a);
      if !changed { return; }
      AfterEvent(events, EvaluatedAt(r, tracker.activeCount));
      SyncSessionMetrics();
      EvaluateRequestedState(r);
    }

    /** Takes over what an observer has seen. An activation that is already over still counts: it opens the
        gate before the session's present state is applied. Each change of state is evaluated with the count
        it leaves and with its own reading, so activity that ends here arms a deadline 400 ms ahead. */
    method ProcessObserverState(o: Observer, source: Source, sawActive: bool, newState: Activity, pulse: Reading, r: Reading)
      requires Valid()
      modifies this`deadline, this`requested, this`events, this`activeMetric, this`trackedMetric, this`corrections, tracker
      ensures Valid() && (old(Paired()) ==> Paired())
      ensures var ignored := (source == NoSource && !sawActive) || stopping || o !in sessions;
              && tracker.states == (if ignored then old(tracker.states) else old(tracker.states)[o.key := newState])
              && events == old(events) + (if ignored then []
                                          else ObserverEvents(old(tracker.states), o.key, sawActive, newState, pulse, r))
              && corrections == old(corrections) + (if !ignored && source == Reconcile
                    && ((sawActive && newState != Active) || tracker.states != old(tracker.states)) then 1 else 0)
              && (!ignored && (sawActive || newState == Active) ==>
                    requested && (deadline == 0 || deadline == r.now + GRACE_MS))
      ensures old(tracker.activeCount) > 0 && tracker.activeCount == 0 && r.demand ==>
                requested && deadline == r.now + GRACE_MS
    {
      hide Matched, After, ActiveKeys, ObserverEvents;
      if source == NoSource && !sawActive { return; }
      if stopping || o !in sessions { return; }
      if Paired() { MatchedUpdate(sessions, tracker.states, o, newState); }
      var changed := TakeOver(o.key, sawActive, newState, pulse, r);
      if changed && source == Reconcile {
        corrections := corrections + 1;
      }
    }

    /** The pulse, if there was one that is over, and then the present state. */
    method TakeOver(key: string, sawActive: bool, newState: Activity, pulse: Reading, r: Reading) returns (changed: bool)
      requires Valid()
      modifies this`deadline, this`requested, this`events, this`activeMetric, this`trackedMetric, tracker
      ensures Valid() && tracker.states == old(tracker.states)[key := newState]
      ensures changed <==> (sawActive && newState != Active) || tracker.states != old(tracker.states)
      ensures events == old(events) + ObserverEvents(old(tracker.states), key, sawActive, newState, pulse, r)
      ensures sawActive || newState == Active ==> requested && (deadline == 0 || deadline == r.now + GRACE_MS)
      ensures old(tracker.activeCount) > 0 && tracker.activeCount == 0 && r.demand ==>
                requested && deadline == r.now + GRACE_MS
    {
      hide After, ActiveKeys, StateEvents;
      if !sawActive || newState == Active {
        changed := ApplyState(key, newState, r);
        return;
      }
      ghost var states := tracker.states;
      var over := ApplyState(key, Active, pulse);
      ActiveCounts(tracker.states, key);
      assert tracker.activeCount > 0 && tracker.states[key] == Active;
      changed := ApplyState(key, newState, r);
      assert tracker.states[key] == newState;
      assert tracker.states == states[key := newState];
    }

    /** First locked section of a registration: a key is tracked once. Callbacks, the user and other sessions
        may act before the registration turns out to have failed. */
    method RegisterSession(o: Observer) returns (pending: bool)
      requires Valid()
      modifies this`sessions, this`activeMetric, this`trackedMetric, tracker
      ensures Valid() && (old(Paired()) ==> Paired()) && tracker.activeCount == old(tracker.activeCount)
      ensures pending <==> !stopping && o.key !in old(tracker.states)
      ensures sessions == if pending then old(sessions) + [o] else old(sessions)
      ensures tracker.states == if pending then old(tracker.states)[o.key := Inactive] else old(tracker.states)
    {
      hide After, Matched, ActiveKeys;
      if stopping || tracker.Contains(o.key) { return false; }
      if Paired() { MatchedInsert(sessions, tracker.states, o); }
      sessions := sessions + [o];
      var r := tracker.Update(o.key, Inactive);
      SyncSessionMetrics();
      pending := true;
    }

    /** Second locked section, when the callback could not be installed: the observer goes if it is still there
        and its key goes in any case, whoever holds it by then. */
    method RegistrationFailed(o: Observer, r: Reading)
      requires Valid()
      modifies this`sessions, this`deadline, this`requested, this`events, this`activeMetric, this`trackedMetric, tracker
      ensures Valid() && events == old(events) + [EvaluatedAt(r, tracker.activeCount)]
      ensures tracker.states == old(tracker.states) - {o.key}
      ensures sessions == WithoutFirst(old(sessions), o)
      ensures old(Paired()) && (o in old(sessions) || o.key !in old(tracker.states)) ==> Paired()
      ensures old(tracker.activeCount) > 0 && tracker.activeCount == 0 && r.demand ==>
                requested && deadline == r.now + GRACE_MS
    {
      hide After, Matched, ActiveKeys, WithoutFirst;
      DropFirst(o);
      SyncSessionMetrics();
      EvaluateRequestedState(r);
      ArmsAfter(old(events), EvaluatedAt(r, tracker.activeCount));
    }

    method DropFirst(o: Observer)
      requires tracker.Valid()
      modifies this`sessions, tracker
      ensures tracker.Valid() && tracker.states == old(tracker.states) - {o.key}
      ensures tracker.activeCount <= old(tracker.activeCount)
      ensures sessions == WithoutFirst(old(sessions), o)
      ensures old(Paired()) && (o in old(sessions) || o.key !in old(tracker.states)) ==> Paired()
    {
      hide Matched, ActiveKeys, WithoutFirst;
      var at := 0;
      while at < |sessions| && sessions[at] != o
        invariant 0 <= at <= |sessions| && o !in sessions[..at]
      {
        at := at + 1;
      }
      WithoutFirstAt(sessions, o, at);
      if at < |sessions| {
        if Paired() { MatchedErase(sessions, tracker.states, at); }
        sessions := sessions[..at] + sessions[at + 1..];
      } else {
        assert sessions[..at] == sessions && o !in sessions;
      }
      var found := tracker.Remove(o.key);
      assert !found ==> tracker.states == old(tracker.states);
    }

    /** Forgets one observer and its key; metrics and gate are left to the caller. */
    method DropAt(at: nat)
      requires tracker.Valid() && at < |sessions|
      modifies this`sessions, tracker
      ensures tracker.Valid() && (old(Paired()) ==> Paired())
      ensures sessions == old(sessions)[..at] + old(sessions)[at + 1..]
      ensures tracker.states == old(tracker.states) - {old(sessions)[at].key}
    {
      hide Matched, ActiveKeys;
      if Paired() { MatchedErase(sessions, tracker.states, at); }
      var found := tracker.Remove(sessions[at].key);
      sessions := sessions[..at] + sessions[at + 1..];
    }

    /** Drops every expired observer with its key. */
    method CleanupExpiredSessions(expired: set<nat>, r: Reading)
      requires Valid()
      modifies this`sessions, this`deadline, this`requested, this`events, this`activeMetric, this`trackedMetric, tracker
      ensures Valid() && (old(Paired()) ==> Paired())
      ensures events == old(events) + [EvaluatedAt(r, tracker.activeCount)]
      ensures sessions == Kept(old(sessions), expired)
      ensures tracker.states == old(tracker.states) - ExpiredKeys(old(sessions), expired)
      ensures old(tracker.activeCount) > 0 && tracker.activeCount == 0 && r.demand ==>
                requested && deadline == r.now + GRACE_MS
    {
      hide After, Matched, ActiveKeys, Kept, ExpiredKeys;
      DropExpired(expired);
      SyncSessionMetrics();
      EvaluateRequestedState(r);
      ArmsAfter(old(events), EvaluatedAt(r, tracker.activeCount));
    }

    method DropExpired(expired: set<nat>)
      requires tracker.Valid()
      modifies this`sessions, tracker
      ensures tracker.Valid() && (old(Paired()) ==> Paired())
      ensures sessions == Kept(old(sessions), expired)
      ensures tracker.states == old(tracker.states) - ExpiredKeys(old(sessions), expired)
    {
      hide After, Matched, ActiveKeys, Kept, ExpiredKeys;
      ghost var was, states, seen := sessions, tracker.states, 0;
      var it := 0;
      NothingKept(expired, states);
      while it < |sessions|
        invariant 0 <= it <= |sessions| && 0 <= seen <= |was|
        invariant sessions[..it] == Kept(was[..seen], expired) && sessions[it..] == was[seen..]
        invariant tracker.Valid() && (old(Paired()) ==> Paired())
        invariant tracker.states == states - ExpiredKeys(was[..seen], expired)
        modifies this`sessions, tracker
        decreases |sessions| - it
      {
        assert was[..seen + 1] == was[..seen] + [was[seen]] && was[seen..][1..] == was[seen + 1..];
        KeptStep(was[..seen], was[seen], expired, states);
        assert sessions[it] == sessions[it..][0] == was[seen];
        if sessions[it].id !in expired {
          assert sessions[..it + 1] == sessions[..it] + [sessions[it]] && sessions[it + 1..] == sessions[it..][1..];
          assert tracker.states - {} == tracker.states;
          it := it + 1;
        } else {
          ghost var before := sessions;
          DropAt(it);
          assert sessions[..it] == before[..it] && sessions[it..] == before[it..][1..];
        }
        seen := seen + 1;
      }
      assert was[..seen] == was && sessions[..it] == sessions;
    }

    method UnregisterAllSessions()
      requires Valid()
      modifies this`sessions, this`deadline, this`events, this`activeMetric, this`trackedMetric, tracker
      ensures Valid() && Paired() && sessions == [] && requested == old(requested) && deadline == 0
      ensures tracker.activeCount == 0 && events == old(events) + [Cleared] && tracker.states == map[] && stopping == old(stopping)
    {
      hide After, Matched, ActiveKeys;
      sessions := [];
      tracker.Clear();
      deadline := 0;
      AfterEvent(events, Cleared);
      NothingMatched();
      events := events + [Cleared];
      SyncSessionMetrics();
    }

    /** The evaluation that follows a change of mode; the mode it reads may already be a newer one. */
    method OnDemandModeChanged(r: Reading)
      requires Valid()
      modifies this`deadline, this`requested, this`events
      ensures Valid() && (!r.demand ==> requested && deadline == 0)
      ensures events == old(events) + [EvaluatedAt(r, tracker.activeCount)]
    {
      EvaluateRequestedState(r);
    }

    /** The periodic evaluation that ends every reconcile pass. */
    method Reconciled(r: Reading)
      requires Valid()
      modifies this`deadline, this`requested, this`events
      ensures Valid() && events == old(events) + [EvaluatedAt(r, tracker.activeCount)]
    {
      EvaluateRequestedState(r);
    }

    /** One step of the run: a locked section, or the flag that shutting down sets before it takes the lock. All
        it does to the gate is evaluate it, with the count it leaves, or clear the deadline. */
    method Happen(op: Op)
      requires Valid() && op.Ordered()
      modifies this, tracker
      ensures Valid() && View() == Followed(old(View()), op)
      ensures events == old(events) + EventsOf(old(View()), op)
      ensures old(Paired()) && (op.Failing? ==> op.o in old(sessions) || op.o.key !in old(tracker.states)) ==> Paired()
    {
      hide Matched, After, ActiveKeys, Followed, EventsOf;
      if op.Observed? {
        Observe(op);
      } else if op.Failing? || op.Registering? {
        Register(op);
      } else if op.Cleanup? || op.Clearing? {
        Unregister(op);
      } else {
        Evaluate(op);
      }
    }

    method Observe(op: Op)
      requires Valid() && op.Observed?
      modifies this, tracker
      ensures Valid() && View() == Followed(old(View()), op) && (old(Paired()) ==> Paired())
      ensures events == old(events) + EventsOf(old(View()), op)
    {
      hide Matched, After, ActiveKeys, ObserverEvents;
      ProcessObserverState(op.o, op.source, op.sawActive, op.newState, op.pulse, op.r);
    }

    method Register(op: Op)
      requires Valid() && (op.Registering? || op.Failing?)
      modifies this, tracker
      ensures Valid() && View() == Followed(old(View()), op)
      ensures events == old(events) + EventsOf(old(View()), op)
      ensures old(Paired()) && (op.Failing? ==> op.o in old(sessions) || op.o.key !in old(tracker.states)) ==> Paired()
    {
      hide Matched, After, ActiveKeys, WithoutFirst;
      if op.Registering? {
        var pending := RegisterSession(op.o);
      } else {
        RegistrationFailed(op.o, op.r);
      }
    }

    method Unregister(op: Op)
      requires Valid() && (op.Cleanup? || op.Clearing?)
      modifies this, tracker
      ensures Valid() && View() == Followed(old(View()), op) && (old(Paired()) ==> Paired())
      ensures events == old(events) + EventsOf(old(View()), op)
    {
      hide Matched, After, ActiveKeys, Kept, ExpiredKeys;
      if op.Cleanup? {
        CleanupExpiredSessions(op.expired, op.r);
      } else {
        UnregisterAllSessions();
      }
    }

    method Evaluate(op: Op)
      requires Valid() && (op.Reconciling? || op.ModeChanged? || op.Stopping?)
      modifies this, tracker
      ensures Valid() && View() == Followed(old(View()), op) && (old(Paired()) ==> Paired())
      ensures events == old(events) + EventsOf(old(View()), op)
    {
      hide Matched, After, ActiveKeys;
      match op
      case Reconciling(r) => Reconciled(r);
      case ModeChanged(r) => OnDemandModeChanged(r);
      case Stopping(_) => stopping := true;
    }
  }

  /** What a monitor keeps about sessions. */
  datatype Tracked = Tracked(sessions: seq<Observer>, states: map<string, Activity>, stopping: bool) {
    function Count(): nat {
      |ActiveKeys(states)|
    }
  }

  /** The observer has nothing to report, or is not, or no longer, listened to. */
  predicate Ignored(t: Tracked, op: Op)
    requires op.Observed?
  {
    (op.source == NoSource && !op.sawActive) || t.stopping || op.o !in t.sessions
  }

  /** What an operation leaves tracked. */
  function Followed(t: Tracked, op: Op): Tracked {
    match op
    case Observed(o, _, _, newState, _, _) => if Ignored(t, op) then t else t.(states := t.states[o.key := newState])
    case Registering(o, _) =>
      if t.stopping || o.key in t.states then t
      else t.(sessions := t.sessions + [o], states := t.states[o.key := Inactive])
    case Failing(o, _) => t.(sessions := WithoutFirst(t.sessions, o), states := t.states - {o.key})
    case Cleanup(expired, _) =>
      t.(sessions := Kept(t.sessions, expired), states := t.states - ExpiredKeys(t.sessions, expired))
    case Reconciling(_) => t
    case ModeChanged(_) => t
    case Stopping(_) => t.(stopping := true)
    case Clearing(_) => t.(sessions := [], states := map[])
  }

  /** What an operation does to the gate. */
  function EventsOf(t: Tracked, op: Op): seq<Event> {
    match op
    case Observed(o, _, sawActive, newState, pulse, r) =>
      if Ignored(t, op) then [] else ObserverEvents(t.states, o.key, sawActive, newState, pulse, r)
    case Registering(_, _) => []
    case Stopping(_) => []
    case Clearing(_) => [Cleared]
    case _ => [EvaluatedAt(op.r, Followed(t, op).Count())]
  }

  /** Evaluations at the operation's ticks, the last one with the count it leaves; every change of that count is
      evaluated or comes from clearing; and whatever the operation is, only clearing does not evaluate. */
  ghost predicate Accounted(op: Op, more: seq<Event>, before: nat, after: nat) {
    && Within(more, 0, op.Begin(), op.End()) && Timed(more)
    && (after != before ==> more != [] && (more[|more| - 1].Evaluated? ==> more[|more| - 1].count == after))
    && (forall e :: 0 <= e < |more| && !op.Clearing? ==> more[e].Evaluated?)
  }

  lemma AlwaysAccounted(t: Tracked, op: Op)
    requires op.Ordered()
    ensures Accounted(op, EventsOf(t, op), t.Count(), Followed(t, op).Count())
    ensures op.Observed? && op.Showed() && !Ignored(t, op) ==> t.Count() > 0 || Saw(EventsOf(t, op))
  {
    hide ActiveKeys, ObserverEvents, Kept, ExpiredKeys, WithoutFirst, Saw;
    match op
    case Observed(o, _, sawActive, newState, pulse, r) =>
      LastObserved(t.states, o.key, sawActive, newState, pulse, r);
    case Registering(o, _) => InactiveAdded(t.states, o.key);
    case _ =>
  }

  lemma InactiveAdded(states: map<string, Activity>, key: string)
    ensures key !in states ==> ActiveKeys(states[key := Inactive]) == ActiveKeys(states)
  {
  }

  /** Everything that can happen to a monitor, with what each evaluation it makes reads. A pulse and the state
      after it are two evaluations: each reads the mode and the tick for itself. */
  datatype Op =
    | Observed(o: Observer, source: Source, sawActive: bool, newState: Activity, pulse: Reading, r: Reading)
    | Registering(o: Observer, r: Reading)
    | Failing(o: Observer, r: Reading)
    | Cleanup(expired: set<nat>, r: Reading)
    | Reconciling(r: Reading)
    | ModeChanged(r: Reading)
    | Stopping(r: Reading)
    | Clearing(r: Reading)
  {
    /** Tick of the first evaluation it may make. */
    function Begin(): nat {
      if Observed? then pulse.now else r.now
    }

    function End(): nat {
      r.now
    }

    /** The observer has something to report, and it is or was activity. */
    predicate Showed()
      requires Observed?
    {
      sawActive || (source != NoSource && newState == Active)
    }

    predicate Ordered() {
      Begin() <= End()
    }
  }

  /** What a release of the lock leaves behind: the active count, the gate, whether one of the evaluations since
      the last release saw activity or demand mode off, the number of events so far, and what is tracked. */
  datatype Release = Release(count: nat, gate: Gate, saw: bool, mark: nat, view: Tracked)

  /** Operation j closes the gate. */
  predicate Closes(log: seq<Release>, j: nat)
    requires j + 1 < |log|
  {
    log[j].gate.requested && !log[j + 1].gate.requested
  }

  /** Activity at operation k: a session was active when it began, or one of its own evaluations saw activity,
      however short, or demand mode off. */
  predicate ActiveAt(log: seq<Release>, k: nat)
    requires k + 1 < |log|
  {
    log[k].count > 0 || log[k + 1].saw
  }

  /** Nothing closes until 400 ms after operation k began, if there was activity at it. */
  ghost predicate FarFromActivity(log: seq<Release>, ops: seq<Op>)
    requires |log| <= |ops| + 1
  {
    forall k, j :: 0 <= k <= j < |log| - 1 && ActiveAt(log, k) && Closes(log, j) ==>
      ops[k].Begin() + GRACE_MS <= ops[j].End()
  }

  /** After the last of these releases the gate is still held on account of each earlier activity. */
  ghost predicate StillHeld(log: seq<Release>, ops: seq<Op>)
    requires 0 < |log| <= |ops| + 1
  {
    forall k :: 0 <= k < |log| - 1 && ActiveAt(log, k) ==>
      Held(log[|log| - 1].gate, ops[k].Begin() + GRACE_MS) || ops[|log| - 2].End() >= ops[k].Begin() + GRACE_MS
  }

  /** Ticks never go back, within an operation or between two. */
  ghost predicate Rising(ops: seq<Op>) {
    && (forall i :: 0 <= i < |ops| ==> ops[i].Ordered())
    && (forall i, j :: 0 <= i < j < |ops| ==> ops[i].End() <= ops[j].Begin())
  }

  ghost predicate Sound(log: seq<Release>) {
    forall k :: 0 <= k < |log| && log[k].count > 0 ==> log[k].gate == Gate(true, 0)
  }

  /** Activity at this operation or an earlier one holds the gate after it. */
  lemma ActivityHolds(log: seq<Release>, ops: seq<Op>, r: Release, events: seq<Event>, more: seq<Event>, k: nat)
    requires 0 < |log| <= |ops| && Rising(ops) && Sound(log) && StillHeld(log, ops)
    requires After(events) == log[|log| - 1].gate && After(events + more) == r.gate && (r.saw <==> Saw(more))
    requires Within(more, 0, ops[|log| - 1].Begin(), ops[|log| - 1].End())
    requires k < |log| && ActiveAt(log + [r], k)
    ensures Held(r.gate, ops[k].Begin() + GRACE_MS) || ops[|log| - 1].End() >= ops[k].Begin() + GRACE_MS
  {
    hide After, Within;
    var i := |log| - 1;
    var next := log + [r];
    var T := ops[k].Begin() + GRACE_MS;
    if k == i && log[i].count == 0 {
      var e :| 0 <= e < |more| && Seen(more[e]);
      SeenHolds(events, more, e, ops[i].Begin(), ops[i].End());
    } else {
      if k < i {
        assert ActiveAt(log, k);
        assert ops[k].Begin() <= ops[k].End() <= ops[i].Begin();
      }
      if Held(log[i].gate, T) {
        HeldOrLate(events, more, T, ops[i].Begin(), ops[i].End());
      }
    }
  }

  /** One more operation keeps both. */
  lemma RunStep(log: seq<Release>, ops: seq<Op>, r: Release, events: seq<Event>, more: seq<Event>)
    requires 0 < |log| <= |ops| && Rising(ops) && Sound(log)
    requires FarFromActivity(log, ops) && StillHeld(log, ops)
    requires After(events) == log[|log| - 1].gate && After(events + more) == r.gate && (r.saw <==> Saw(more))
    requires Within(more, 0, ops[|log| - 1].Begin(), ops[|log| - 1].End())
    ensures FarFromActivity(log + [r], ops) && StillHeld(log + [r], ops)
  {
    hide After, Within, Rising, Sound, Saw;
    var i, next := |log| - 1, log + [r];
    forall k: nat | k <= i && ActiveAt(next, k)
      ensures Held(r.gate, ops[k].Begin() + GRACE_MS) || ops[i].End() >= ops[k].Begin() + GRACE_MS {
      ActivityHolds(log, ops, r, events, more, k);
    }
    forall k, j | 0 <= k <= j < |next| - 1 && ActiveAt(next, k) && Closes(next, j)
      ensures ops[k].Begin() + GRACE_MS <= ops[j].End() {
      if j < i { assert ActiveAt(log, k) && Closes(log, j); }
    }
  }

  /** What operation j did: what it leaves tracked and the events it made. */
  ghost predicate MadeBy(log: seq<Release>, ops: seq<Op>, events: seq<Event>, j: nat)
    requires j + 1 < |log| <= |ops| + 1
  {
    && log[j].mark <= log[j + 1].mark <= |events|
    && log[j + 1].view == Followed(log[j].view, ops[j]) && log[j + 1].count == log[j + 1].view.Count()
    && events[log[j].mark..log[j + 1].mark] == EventsOf(log[j].view, ops[j])
    && (log[j + 1].saw <==> Saw(events[log[j].mark..log[j + 1].mark]))
    && log[j].gate == After(events[..log[j].mark]) && log[j + 1].gate == After(events[..log[j + 1].mark])
  }

  /** A pass of the monitor's thread, which always evaluates. */
  predicate Pass(op: Op) {
    op.Reconciling? || op.Cleanup?
  }

  /** Nothing is cleared by operations i to j, and no evaluation among them sees activity or demand mode off. */
  ghost predicate QuietBetween(log: seq<Release>, ops: seq<Op>, i: nat, j: nat)
    requires |log| <= |ops| + 1
  {
    forall k :: i <= k <= j && k < |log| - 1 ==> QuietAt(log, ops, k)
  }

  predicate QuietAt(log: seq<Release>, ops: seq<Op>, k: nat)
    requires k < |log| - 1 <= |ops|
  {
    !log[k + 1].saw && !ops[k].Clearing?
  }

  /** Only this key's state is another one now. */
  ghost predicate Replaces(was: map<string, Activity>, now: map<string, Activity>, key: string, a: Activity) {
    && key in now && now[key] == a && now.Keys == was.Keys + {key}
    && forall k :: k in was && k != key ==> now[k] == was[k]
  }

  /** What the gate does at operation j, whatever came before: what a listened-to observer shows becomes its
      session's state; a session shown active opens the gate, a change of mode that reads demand mode off opens it, nothing but activity or demand mode off
      opens it, and it closes only at an evaluation in demand mode that sees nothing. */
  ghost predicate GateMoves(log: seq<Release>, ops: seq<Op>, events: seq<Event>, j: nat)
    requires j + 1 < |log| <= |ops| + 1
  {
    && (ops[j].Observed? && ops[j].Showed() && ops[j].o in log[j].view.sessions && !log[j].view.stopping ==>
          log[j + 1].gate.requested)
    && (ops[j].Observed? && !Ignored(log[j].view, ops[j]) ==>
          Replaces(log[j].view.states, log[j + 1].view.states, ops[j].o.key, ops[j].newState))
    && (ops[j].Observed? && ops[j].newState == Active && !Ignored(log[j].view, ops[j]) ==> log[j + 1].count > 0)
    && (ops[j].ModeChanged? && !ops[j].r.demand ==> log[j + 1].gate == Gate(true, 0))
    && (!log[j].gate.requested && log[j + 1].gate.requested ==> log[j + 1].saw)
    && (Closes(log, j) ==> exists e :: log[j].mark <= e < log[j + 1].mark <= |events| && Quiet(events[e]))
  }

  /** Every timed run of a monitor from its start. Whenever a session is active the gate is open with no
      deadline; it never closes near activity, and it is closed after a pass that comes 400 ms after another with
      only quiet between; and at every release the gate is what the events so far make it, so that the laws about
      events hold of the run. */
  method RunOf(ops: seq<Op>) returns (m: MicUsageMonitor, ghost log: seq<Release>)
    requires Rising(ops)
    ensures fresh(m) && m.Valid() && Timed(m.events)
    ensures |log| == |ops| + 1 && Sound(log) && FarFromActivity(log, ops)
    ensures forall j :: 0 <= j < |ops| ==> MadeBy(log, ops, m.events, j)
    ensures forall j :: 0 <= j < |ops| ==> GateMoves(log, ops, m.events, j)
    ensures forall i, j :: 0 <= i < j < |ops| && Pass(ops[i]) && Pass(ops[j]) && ops[i].End() + GRACE_MS <= ops[j].End() ==>
              QuietBetween(log, ops, i, j) ==> !log[j + 1].gate.requested
    ensures forall j :: 0 <= j < |log| ==> log[j].mark <= |m.events| && After(m.events[..log[j].mark]) == log[j].gate
  {
    hide After, Matched, FarFromActivity, StillHeld, Rising, Within, Saw, MadeBy, Timed, Followed, EventsOf, ActiveKeys,
         QuietBetween, GateMoves, Pass;
    m := new MicUsageMonitor();
    assert ActiveKeys(map[]) == {} by { NothingActive(); }
    log := [Release(0, Gate(false, 0), false, 0, Tracked([], map[], false))];
    NothingYet(log, ops);
    var i := 0;
    while i < |ops|
      invariant 0 <= i <= |ops| && fresh(m) && fresh(m.tracker) && m.Valid() && |log| == i + 1
      invariant log[i].count == m.tracker.activeCount && log[i].gate == Gate(m.requested, m.deadline)
      invariant log[i].mark == |m.events| && log[i].view == m.View()
      invariant Timed(m.events) && Within(m.events, 0, 0, if i == 0 then 0 else ops[i - 1].End())
      invariant Sound(log) && FarFromActivity(log, ops) && StillHeld(log, ops)
      invariant forall j :: 0 <= j < i ==> MadeBy(log, ops, m.events, j)
      invariant forall j :: 0 <= j <= i ==> log[j].count == log[j].view.Count()
      invariant forall j :: 0 <= j <= i ==> log[j].mark <= |m.events| && After(m.events[..log[j].mark]) == log[j].gate
    {
      ghost var was, last := m.events, if i == 0 then 0 else ops[i - 1].End();
      ghost var more := EventsOf(log[i].view, ops[i]);
      RisingStep(ops, i);
      AlwaysAccounted(log[i].view, ops[i]);
      m.Happen(ops[i]);
      ghost var r := Release(m.tracker.activeCount, Gate(m.requested, m.deadline), Saw(more), |m.events|, m.View());
      assert m.events[..|m.events|] == m.events;
      LaterTicks(was, more, last, ops[i]);
      RunStep(log, ops, r, was, more);
      forall j | 0 <= j <= i ensures m.events[..log[j].mark] == was[..log[j].mark] {
      }
      MadeStep(log, ops, was, more, r);
      log := log + [r];
      i := i + 1;
    }
    forall j | 0 <= j < |ops| ensures GateMoves(log, ops, m.events, j) {
      RisingStep(ops, j);
      MovesFollow(log, ops, m.events, j);
    }
    forall i, j | 0 <= i < j < |ops| && Pass(ops[i]) && Pass(ops[j]) && QuietBetween(log, ops, i, j)
                  && ops[i].End() + GRACE_MS <= ops[j].End()
      ensures !log[j + 1].gate.requested {
      PassesClose(log, ops, m.events, i, j);
    }
  }

  lemma NothingActive()
    ensures ActiveKeys(map[]) == {}
  {
  }

  lemma MadeStep(log: seq<Release>, ops: seq<Op>, was: seq<Event>, more: seq<Event>, r: Release)
    requires 0 < |log| <= |ops| && log[|log| - 1].mark == |was| && log[|log| - 1].gate == After(was)
    requires r.gate == After(was + more) && r.mark == |was + more| && (r.saw <==> Saw(more))
    requires r.view == Followed(log[|log| - 1].view, ops[|log| - 1]) && r.count == r.view.Count()
    requires more == EventsOf(log[|log| - 1].view, ops[|log| - 1])
    requires forall j :: 0 <= j < |log| - 1 ==> MadeBy(log, ops, was, j)
    ensures forall j :: 0 <= j < |log| ==> MadeBy(log + [r], ops, was + more, j)
  {
    hide After, Saw, Followed, EventsOf, ActiveKeys;
    var n, all, next := |log| - 1, was + more, log + [r];
    forall j: nat | j <= n ensures MadeBy(next, ops, all, j) {
      if j < n {
        assert MadeBy(log, ops, was, j);
        assert all[next[j].mark..next[j + 1].mark] == was[log[j].mark..log[j + 1].mark];
        assert all[..next[j].mark] == was[..next[j].mark] && all[..next[j + 1].mark] == was[..next[j + 1].mark];
      } else {
        assert all[|was|..|all|] == more && all[..|was|] == was && all[..|all|] == all;
      }
    }
  }

  /** An operation's events are what lies between the two marks. */
  lemma Between(log: seq<Release>, ops: seq<Op>, events: seq<Event>, j: nat)
    requires j + 1 < |log| <= |ops| + 1 && MadeBy(log, ops, events, j)
    ensures var more := EventsOf(log[j].view, ops[j]);
            && events[..log[j + 1].mark] == events[..log[j].mark] + more && |more| == log[j + 1].mark - log[j].mark
            && forall e :: 0 <= e < |more| ==> more[e] == events[log[j].mark + e]
  {
    hide After, Saw, Followed, EventsOf, ActiveKeys;
    var a, b := log[j].mark, log[j + 1].mark;
    assert events[..b] == events[..a] + events[a..b];
    assert forall e :: 0 <= e < b - a ==> events[a..b][e] == events[a + e];
  }

  /** Whatever the gate was, an observer that shows activity leaves it open. */
  lemma ShowingOpens(t: Tracked, op: Op, was: seq<Event>)
    requires op.Observed? && op.Showed() && !Ignored(t, op) && (t.Count() > 0 ==> After(was) == Gate(true, 0))
    ensures After(was + EventsOf(t, op)).requested
  {
    hide After, ActiveKeys;
    var key, states := op.o.key, t.states;
    ActiveCounts(states[key := Active], key);
    if key in states && states[key] == Active {
      ActiveCounts(states, key);
      OneMore(was, StateEvents(states, key, op.newState, op.r));
      assert states[key := Active] == states;
      assert EventsOf(t, op) == StateEvents(states, key, op.newState, op.r);
    } else {
      var first := if op.newState == Active then op.r else op.pulse;
      var opening := EvaluatedAt(first, |ActiveKeys(states[key := Active])|);
      AfterEvent(was, opening);
      var rest := if op.newState == Active then [] else StateEvents(states[key := Active], key, op.newState, op.r);
      OneMore(was + [opening], rest);
      assert was + [opening] + rest == was + EventsOf(t, op);
    }
  }

  /** One evaluation does not close a gate without a deadline. */
  lemma OneMore(events: seq<Event>, more: seq<Event>)
    requires After(events) == Gate(true, 0) && |more| <= 1 && (more != [] ==> more[0].Evaluated?)
    ensures After(events + more).requested
  {
    hide After;
    if more == [] { assert events + more == events; } else { AfterEvent(events, more[0]); assert more == [more[0]]; }
  }

  /** Two passes 400 ms apart with only quiet between: the second closes the gate. */
  lemma PassesClose(log: seq<Release>, ops: seq<Op>, events: seq<Event>, i: nat, j: nat)
    requires i < j < |log| - 1 == |ops| && Rising(ops) && Timed(events)
    requires forall k :: 0 <= k < |ops| ==> MadeBy(log, ops, events, k)
    requires Pass(ops[i]) && Pass(ops[j]) && QuietBetween(log, ops, i, j) && ops[i].End() + GRACE_MS <= ops[j].End()
    ensures !log[j + 1].gate.requested
  {
    hide After, ActiveKeys, ObserverEvents, Kept, ExpiredKeys, WithoutFirst, QuietBetween, Followed, Saw;
    QuietSpan(log, ops, events, i, j);
    PassMakes(log, ops, events, i);
    PassMakes(log, ops, events, j);
    var upTo, first := events[..log[j + 1].mark], log[i].mark;
    MarksRise(log, ops, events, i, j);
    assert forall e :: first <= e < |upTo| ==> Quiet(upTo[e]);
    ClosesWhenQuiet(upTo, first);
  }

  lemma PassMakes(log: seq<Release>, ops: seq<Op>, events: seq<Event>, j: nat)
    requires j + 1 < |log| <= |ops| + 1 && MadeBy(log, ops, events, j) && Pass(ops[j])
    ensures log[j + 1].mark == log[j].mark + 1 <= |events|
    ensures events[log[j].mark] == Evaluated(ops[j].r.demand, log[j + 1].count, ops[j].End())
  {
    hide After, ActiveKeys, Kept, ExpiredKeys, WithoutFirst, Saw;
    Between(log, ops, events, j);
  }

  lemma {:induction false} MarksRise(log: seq<Release>, ops: seq<Op>, events: seq<Event>, i: nat, j: nat)
    requires i <= j < |log| <= |ops| + 1 && forall k :: i <= k < j ==> MadeBy(log, ops, events, k)
    ensures log[i].mark <= log[j].mark
    decreases j
  {
    hide After, ActiveKeys, Followed, EventsOf, Saw;
    if i < j {
      MarksRise(log, ops, events, i, j - 1);
      assert MadeBy(log, ops, events, j - 1);
    }
  }

  /** With only quiet between, every event of operations i to j is a quiet evaluation. */
  lemma {:induction false} QuietSpan(log: seq<Release>, ops: seq<Op>, events: seq<Event>, i: nat, j: nat)
    requires i <= j < |log| - 1 <= |ops| && Rising(ops) && QuietBetween(log, ops, i, j)
    requires forall k :: i <= k <= j ==> MadeBy(log, ops, events, k)
    ensures log[j + 1].mark <= |events| && forall e :: log[i].mark <= e < log[j + 1].mark ==> Quiet(events[e])
    decreases j
  {
    hide After, ActiveKeys, Followed, EventsOf, Saw, Rising;
    if i < j { QuietSpan(log, ops, events, i, j - 1); }
    assert MadeBy(log, ops, events, j);
    QuietOne(log, ops, events, j);
  }

  lemma QuietOne(log: seq<Release>, ops: seq<Op>, events: seq<Event>, j: nat)
    requires j + 1 < |log| <= |ops| + 1 && Rising(ops) && MadeBy(log, ops, events, j)
    requires QuietAt(log, ops, j)
    ensures log[j + 1].mark <= |events| && forall e :: log[j].mark <= e < log[j + 1].mark ==> Quiet(events[e])
  {
    hide After, ActiveKeys, Followed, EventsOf;
    var a := log[j].mark;
    var more := EventsOf(log[j].view, ops[j]);
    Between(log, ops, events, j);
    AlwaysAccounted(log[j].view, ops[j]);
    forall e | a <= e < log[j + 1].mark ensures Quiet(events[e]) {
      assert more[e - a] == events[e] && !Seen(more[e - a]) && more[e - a].Evaluated?;
    }
  }

  lemma MovesFollow(log: seq<Release>, ops: seq<Op>, events: seq<Event>, j: nat)
    requires j + 1 < |log| <= |ops| + 1 && MadeBy(log, ops, events, j) && Sound(log) && ops[j].Ordered()
    requires log[j].count == log[j].view.Count()
    ensures GateMoves(log, ops, events, j)
  {
    hide After, ActiveKeys, ObserverEvents, Kept, ExpiredKeys, WithoutFirst;
    var was, more, op := events[..log[j].mark], EventsOf(log[j].view, ops[j]), ops[j];
    Between(log, ops, events, j);
    AlwaysAccounted(log[j].view, op);
    if op.Observed? && !Ignored(log[j].view, op) {
      if op.newState == Active { ActiveCounts(log[j + 1].view.states, op.o.key); }
      if op.Showed() { ShowingOpens(log[j].view, op, was); }
    }
    if op.ModeChanged? { AfterEvent(was, more[0]); }
    if !log[j].gate.requested && log[j + 1].gate.requested { OpenedBySeen(was, more); }
    if Closes(log, j) {
      ClosedByQuiet(was, more);
      var e :| 0 <= e < |more| && Quiet(more[e]);
      assert Quiet(events[log[j].mark + e]);
    }
  }

  lemma NothingYet(log: seq<Release>, ops: seq<Op>)
    requires |log| == 1
    ensures FarFromActivity(log, ops) && StillHeld(log, ops)
    ensures Timed([]) && Within([], 0, 0, 0)
  {
  }

  lemma RisingStep(ops: seq<Op>, i: nat)
    requires Rising(ops) && i < |ops|
    ensures ops[i].Ordered() && (i > 0 ==> ops[i - 1].End() <= ops[i].Begin())
  {
  }

  lemma LaterTicks(was: seq<Event>, more: seq<Event>, last: nat, op: Op)
    requires Timed(was) && Within(was, 0, 0, last) && Timed(more) && Within(more, 0, op.Begin(), op.End())
    requires last <= op.Begin() <= op.End()
    ensures Timed(was + more) && Within(was + more, 0, 0, op.End())
  {
    var all := was + more;
    assert forall k :: |was| <= k < |all| ==> all[k] == more[k - |was|];
  }

  // ----- observers and keys -----

  ghost predicate HasKey(sessions: seq<Observer>, k: string) {
    exists i :: 0 <= i < |sessions| && sessions[i].key == k
  }

  /** Observers have distinct keys, and these are the tracked ones. */
  ghost predicate Matched(sessions: seq<Observer>, states: map<string, Activity>) {
    && (forall i, j :: 0 <= i < j < |sessions| ==> sessions[i].key != sessions[j].key)
    && (forall i :: 0 <= i < |sessions| ==> sessions[i].key in states)
    && (forall k :: k in states ==> HasKey(sessions, k))
  }

  lemma NothingMatched()
    ensures Matched([], map[])
  {
  }

  lemma MatchedUpdate(sessions: seq<Observer>, states: map<string, Activity>, o: Observer, a: Activity)
    requires Matched(sessions, states) && o in sessions
    ensures Matched(sessions, states[o.key := a])
  {
    assert o.key in states;
  }

  lemma MatchedInsert(sessions: seq<Observer>, states: map<string, Activity>, o: Observer)
    requires Matched(sessions, states) && o.key !in states
    ensures Matched(sessions + [o], states[o.key := Inactive])
  {
    var all, now := sessions + [o], states[o.key := Inactive];
    assert all[|sessions|] == o;
    forall k | k in now ensures HasKey(all, k) {
      if k != o.key {
        assert HasKey(sessions, k);
        var i :| 0 <= i < |sessions| && sessions[i].key == k;
        assert all[i].key == k;
      }
    }
  }

  /** The observers without the first occurrence of o. */
  function WithoutFirst(sessions: seq<Observer>, o: Observer): (rest: seq<Observer>)
    ensures o !in sessions ==> rest == sessions
  {
    if sessions == [] then []
    else if sessions[0] == o then sessions[1..]
    else [sessions[0]] + WithoutFirst(sessions[1..], o)
  }

  /** Exactly one occurrence goes, if there is one. */
  lemma {:induction false} OneGoes(sessions: seq<Observer>, o: Observer)
    ensures multiset(WithoutFirst(sessions, o)) == multiset(sessions) - multiset{o}
  {
    if sessions != [] {
      assert sessions == [sessions[0]] + sessions[1..];
      if sessions[0] != o { OneGoes(sessions[1..], o); }
    }
  }

  lemma {:induction false} WithoutFirstAt(sessions: seq<Observer>, o: Observer, at: nat)
    requires at <= |sessions| && o !in sessions[..at] && (at < |sessions| ==> sessions[at] == o)
    ensures WithoutFirst(sessions, o) == if at < |sessions| then sessions[..at] + sessions[at + 1..] else sessions
  {
    if at > 0 {
      assert sessions[0] == sessions[..at][0];
      assert sessions[1..][..at - 1] == sessions[..at][1..];
      WithoutFirstAt(sessions[1..], o, at - 1);
    }
  }

  lemma MatchedErase(sessions: seq<Observer>, states: map<string, Activity>, at: nat)
    requires Matched(sessions, states) && at < |sessions|
    ensures Matched(sessions[..at] + sessions[at + 1..], states - {sessions[at].key})
  {
    hide HasKey;
    var rest, now := sessions[..at] + sessions[at + 1..], states - {sessions[at].key};
    assert forall i :: 0 <= i < |rest| ==> rest[i] == sessions[if i < at then i else i + 1];
    forall k | k in now ensures HasKey(rest, k) {
      HasKeyErase(sessions, at, k);
    }
  }

  lemma HasKeyErase(sessions: seq<Observer>, at: nat, k: string)
    requires at < |sessions| && HasKey(sessions, k) && sessions[at].key != k
    ensures HasKey(sessions[..at] + sessions[at + 1..], k)
  {
    var rest := sessions[..at] + sessions[at + 1..];
    var i :| 0 <= i < |sessions| && sessions[i].key == k;
    assert rest[if i < at then i else i - 1].key == k;
  }

  function Kept(sessions: seq<Observer>, expired: set<nat>): (kept: seq<Observer>)
    ensures |kept| <= |sessions|
  {
    if sessions == [] then []
    else
      var last := sessions[|sessions| - 1];
      Kept(sessions[..|sessions| - 1], expired) + if last.id in expired then [] else [last]
  }

  function ExpiredKeys(sessions: seq<Observer>, expired: set<nat>): set<string> {
    set o | o in sessions && o.id in expired :: o.key
  }

  lemma NothingKept(expired: set<nat>, states: map<string, Activity>)
    ensures Kept([], expired) == [] && states - ExpiredKeys([], expired) == states
  {
  }

  lemma KeptStep(before: seq<Observer>, o: Observer, expired: set<nat>, states: map<string, Activity>)
    ensures Kept(before + [o], expired) == Kept(before, expired) + if o.id in expired then [] else [o]
    ensures states - ExpiredKeys(before + [o], expired)
         == states - ExpiredKeys(before, expired) - if o.id in expired then {o.key} else {}
  {
    hide *;
    ExpiredStep(before, o, expired);
    KeptOne(before, o, expired);
  }

  lemma KeptOne(before: seq<Observer>, o: Observer, expired: set<nat>)
    ensures Kept(before + [o], expired) == Kept(before, expired) + if o.id in expired then [] else [o]
  {
    assert (before + [o])[..|before|] == before;
  }

  lemma ExpiredStep(before: seq<Observer>, o: Observer, expired: set<nat>)
    ensures ExpiredKeys(before + [o], expired) == ExpiredKeys(before, expired) + if o.id in expired then {o.key} else {}
  {
  }

  lemma ActiveCounts(states: map<string, Activity>, key: string)
    requires key in states && states[key] == Active
    ensures |ActiveKeys(states)| > 0
  {
    assert key in ActiveKeys(states);
  }
}
