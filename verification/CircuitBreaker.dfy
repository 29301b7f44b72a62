/** The circuit breaker of src/api/middleware.rs, with concurrent calls and recovery timers. */
module CircuitBreaker {

  datatype Breaker = Closed | Open | HalfOpen

  type CallId = nat

  /** The breaker, the calls under way with the state each has seen, the recovery timers under way, and three
      counts kept for the statements below: failures of calls that saw Closed, in all and since the breaker
      last closed, and entries to HalfOpen. */
  datatype State = State(breaker: Breaker, calls: map<CallId, Breaker>, timers: nat,
                         closedFailures: nat, recentFailures: nat, halfOpens: nat)

  datatype Event =
    | Begin(call: CallId)
    | Finish(call: CallId, ok: bool)
    | Fire

  const INIT := State(Closed, map[], 0, 0, 0, 0)

  predicate Enabled(s: State, e: Event) {
    match e
    case Begin(call) => call !in s.calls
    case Finish(call, _) => call in s.calls
    case Fire => s.timers > 0
  }

  /** A call reads the state and is refused when that is Open; it runs; then it writes what it concludes.
      A timer that fires half-opens the breaker whatever its state. */
  function Step(s: State, e: Event): State
    requires Enabled(s, e)
  {
    match e
    case Begin(call) => if s.breaker.Open? then s else s.(calls := s.calls[call := s.breaker])
    case Finish(call, ok) =>
      var rest := s.(calls := s.calls - {call});
      if s.calls[call].HalfOpen? then
        if ok then rest.(breaker := Closed, recentFailures := if s.breaker.Closed? then s.recentFailures else 0)
        else rest.(breaker := Open)
      else if ok then rest
      else rest.(breaker := Open, timers := s.timers + 1,
                 closedFailures := s.closedFailures + 1, recentFailures := s.recentFailures + 1)
    case Fire => s.(breaker := HalfOpen, timers := s.timers - 1, halfOpens := s.halfOpens + 1)
  }

  /** The state after those of the events that are possible when they are due. */
  function After(s: State, events: seq<Event>): State
    decreases |events|
  {
    if events == [] then s else After(if Enabled(s, events[0]) then Step(s, events[0]) else s, events[1..])
  }

  datatype CallResult = Ran(ok: bool) | Refused

  class CircuitBreaker {
    var state: Breaker
    var timers: nat
    const failureThreshold: nat

    constructor (failureThreshold: nat)
      ensures state == Closed && timers == 0 && this.failureThreshold == failureThreshold
    {
      state, timers, this.failureThreshold := Closed, 0, failureThreshold;
    }

    ghost function Contents(closedFailures: nat, recentFailures: nat, halfOpens: nat): State
      reads this
    {
      State(state, map[], timers, closedFailures, recentFailures, halfOpens)
    }

    /** A call that nothing interrupts; `works` is what the operation would return. */
    method Call(works: bool) returns (result: CallResult)
      modifies this
      ensures result == if old(state).Open? then Refused else Ran(works)
      ensures forall c, r, h ::
                var after := After(old(Contents(c, r, h)), [Begin(0), Finish(0, works)]);
                state == after.breaker && timers == after.timers
    {
      forall c: nat, r: nat, h: nat
        ensures After(Contents(c, r, h), [Begin(0), Finish(0, works)]) ==
                if state.Open? then Contents(c, r, h) else Step(Step(Contents(c, r, h), Begin(0)), Finish(0, works))
      {
        UninterruptedCall(Contents(c, r, h), works);
      }
      if state.Open? {
        return Refused;
      } else if state.HalfOpen? {
        state := if works then Closed else Open;
      } else if !works {
        HandleFailure();
      }
      return Ran(works);
    }

    method HandleFailure()
      modifies this
      ensures state == Open && timers == old(timers) + 1
    {
      state := Open;
      timers := timers + 1;
    }
  }

  lemma UninterruptedCall(s: State, works: bool)
    requires s.calls == map[]
    ensures After(s, [Begin(0), Finish(0, works)]) ==
            if s.breaker.Open? then s else Step(Step(s, Begin(0)), Finish(0, works))
  {
    var begun := if Enabled(s, Begin(0)) then Step(s, Begin(0)) else s;
    assert [Begin(0), Finish(0, works)][1..] == [Finish(0, works)];
    assert After(s, [Begin(0), Finish(0, works)]) == After(begun, [Finish(0, works)]);
    var finished := if Enabled(begun, Finish(0, works)) then Step(begun, Finish(0, works)) else begun;
    assert [Finish(0, works)][1..] == [];
    assert After(begun, [Finish(0, works)]) == After(finished, []);
  }

  // ----- Timers -------------------------------------------------------------------------------------

  /** Calls under way have seen Closed or HalfOpen, and every failure of a call that saw Closed has started
      a timer that is still running or has fired. */
  ghost predicate Accounted(s: State) {
    && (forall c :: c in s.calls ==> !s.calls[c].Open?)
    && s.halfOpens + s.timers == s.closedFailures
  }

  lemma {:induction false} AccountedAfter(s: State, events: seq<Event>)
    requires Accounted(s)
    ensures Accounted(After(s, events))
    decreases |events|
  {
    if events != [] {
      AccountedAfter(if Enabled(s, events[0]) then Step(s, events[0]) else s, events[1..]);
    }
  }

  /** Over all interleavings the breaker half-opens at most as often as calls that saw Closed have failed,
      each such failure accounting for one timer. */
  lemma {:induction false} HalfOpensBounded(events: seq<Event>)
    ensures Accounted(After(INIT, events))
    ensures After(INIT, events).halfOpens <= After(INIT, events).closedFailures
  {
    hide After, Accounted;
    StartsAccounted();
    AccountedAfter(INIT, events);
    NoMoreHalfOpens(After(INIT, events));
  }

  lemma StartsAccounted()
    ensures Accounted(INIT)
  {
  }

  lemma NoMoreHalfOpens(s: State)
    requires Accounted(s)
    ensures s.halfOpens <= s.closedFailures
  {
  }

  /** Over all interleavings: only a timer half-opens the breaker, only a failure opens it, and only the success
      of a call that saw HalfOpen closes it; a call that saw Closed and succeeds changes nothing. */
  lemma WhatChangesTheBreaker(events: seq<Event>, e: Event)
    requires Enabled(After(INIT, events), e)
    ensures var s, s' := After(INIT, events), Step(After(INIT, events), e);
            && (e.Fire? <==> s'.breaker.HalfOpen? && s'.timers < s.timers)
            && (e.Finish? && !e.ok ==> s'.breaker.Open?)
            && (e.Finish? && e.ok && s.calls[e.call].HalfOpen? ==> s'.breaker.Closed?)
            && (e.Begin? || (e.Finish? && e.ok && s.calls[e.call].Closed?) ==> s'.breaker == s.breaker)
  {
    HalfOpensBounded(events);
    hide After;
  }

  // ----- Stuck open ---------------------------------------------------------------------------------

  /** The breaker stays open whatever happens. */
  ghost predicate Stuck(s: State) {
    forall events :: After(s, events).breaker.Open?
  }

  lemma {:induction false} NothingHappens(s: State, events: seq<Event>)
    requires s.breaker.Open? && s.timers == 0 && s.calls == map[]
    ensures After(s, events) == s
    decreases |events|
  {
    if events != [] {
      NothingHappens(s, events[1..]);
    }
  }

  /** The breaker is stuck exactly when it is open, no timer is running and no call is under way.  From
      then on every call is refused without running. */
  lemma StuckIffNothingPending(s: State)
    requires Accounted(s)
    ensures Stuck(s) <==> s.breaker.Open? && s.timers == 0 && s.calls == map[]
    ensures Stuck(s) ==> forall events, call :: After(s, events + [Begin(call)]) == s
  {
    if s.breaker.Open? && s.timers == 0 && s.calls == map[] {
      forall events
        ensures After(s, events) == s
      {
        NothingHappens(s, events);
      }
    } else if !s.breaker.Open? {
      assert !After(s, []).breaker.Open?;
    } else if s.timers > 0 {
      assert [Fire][1..] == [];
      assert !After(s, [Fire]).breaker.Open?;
    } else {
      var c :| c in s.calls;
      if s.calls[c].HalfOpen? {
        assert [Finish(c, true)][1..] == [];
        assert !After(s, [Finish(c, true)]).breaker.Open?;
      } else {
        assert [Finish(c, false), Fire][1..] == [Fire];
        assert [Fire][1..] == [];
        assert !After(s, [Finish(c, false), Fire]).breaker.Open?;
      }
    }
  }

  // ----- One call at a time -------------------------------------------------------------------------

  /** No call begins while another is under way. */
  predicate OneAtATime(s: State, events: seq<Event>)
    decreases |events|
  {
    events == [] ||
    (var e := events[0];
     (e.Begin? ==> s.calls == map[]) && OneAtATime(if Enabled(s, e) then Step(s, e) else s, events[1..]))
  }

  ghost predicate Orderly(s: State) {
    && Accounted(s) && s.timers <= 1
    && (s.timers == 1 ==> s.breaker.Open? && s.calls == map[])
    && (forall c, d :: c in s.calls && d in s.calls ==> c == d)
    && (forall c :: c in s.calls ==> s.calls[c] == s.breaker)
  }

  lemma {:induction false} OrderlyAfter(s: State, events: seq<Event>)
    requires Orderly(s) && OneAtATime(s, events)
    ensures Orderly(After(s, events))
    decreases |events|
  {
    if events != [] {
      var s' := if Enabled(s, events[0]) then Step(s, events[0]) else s;
      assert Orderly(s') by {
        if events[0].Finish? && Enabled(s, events[0]) {
          assert s'.calls == map[];
        }
      }
      OrderlyAfter(s', events[1..]);
    }
  }

  lemma FailedProbe(s: State, call: CallId)
    requires Orderly(s) && call in s.calls && s.calls[call].HalfOpen?
    ensures Stuck(Step(s, Finish(call, false)))
  {
    hide Stuck;
    var s' := Step(s, Finish(call, false));
    assert s'.calls == map[];
    StuckIffNothingPending(s');
  }

  lemma {:induction false} RunIsOrderly(events: seq<Event>)
    requires OneAtATime(INIT, events)
    ensures Orderly(After(INIT, events)) && After(INIT, events).timers <= 1
  {
    OrderlyAfter(INIT, events);
  }

  /** With one call at a time there is never more than one timer, and the first probe that fails in the
      half-open state leaves the breaker stuck open for good: nothing schedules another recovery. */
  lemma {:induction false} FailedProbeIsFatal(events: seq<Event>, s: State, call: CallId)
    requires OneAtATime(INIT, events) && s == After(INIT, events)
    ensures s.timers <= 1
    ensures call in s.calls && s.calls[call].HalfOpen? ==> Stuck(Step(s, Finish(call, false)))
  {
    hide After, OneAtATime, Orderly, Stuck, Step;
    RunIsOrderly(events);
    if call in s.calls && s.calls[call].HalfOpen? {
      FailedProbe(s, call);
    }
  }

  // ----- The threshold ------------------------------------------------------------------------------

  /** The event takes the breaker from Closed to Open. */
  predicate Trips(s: State, e: Event) {
    Enabled(s, e) && s.breaker.Closed? && Step(s, e).breaker.Open?
  }

  /** What the threshold promises: over all interleavings the breaker leaves Closed for Open only after
      `threshold` failures of calls that saw Closed since it last closed. */
  ghost predicate ThresholdHonoured(threshold: nat) {
    forall events, e :: Trips(After(INIT, events), e) ==> Step(After(INIT, events), e).recentFailures >= threshold
  }

  /** The same when no call begins while another is under way. */
  ghost predicate ThresholdHonouredSerially(threshold: nat) {
    forall events, e :: OneAtATime(INIT, events) && Trips(After(INIT, events), e) ==>
      Step(After(INIT, events), e).recentFailures >= threshold
  }

  lemma SerialTripCounts(events: seq<Event>, e: Event)
    requires OneAtATime(INIT, events) && Trips(After(INIT, events), e)
    ensures Step(After(INIT, events), e).recentFailures >= 1
  {
    hide After, OneAtATime;
    RunIsOrderly(events);
  }

  lemma AfterOne(s: State, e: Event)
    ensures After(s, [e]) == if Enabled(s, e) then Step(s, e) else s
  {
    assert [e][1..] == [];
  }

  lemma AfterMore(s: State, e: Event, events: seq<Event>)
    requires Enabled(s, e)
    ensures After(s, [e] + events) == After(Step(s, e), events)
  {
    assert ([e] + events)[1..] == events;
  }

  /** The first failure trips the breaker. */
  lemma FirstFailureTrips() returns (events: seq<Event>, e: Event)
    ensures OneAtATime(INIT, events) && Trips(After(INIT, events), e)
    ensures Step(After(INIT, events), e).recentFailures == 1
  {
    events, e := [Begin(0)], Finish(0, false);
    AfterOne(INIT, Begin(0));
    assert [Begin(0)][1..] == [];
  }

  /** A failure, the timer, and two calls that see HalfOpen, of which the first succeeds. */
  function TwoProbes(k: nat): State
    requires k <= 6
  {
    match k
    case 0 => INIT
    case 1 => State(Closed, map[0 := Closed], 0, 0, 0, 0)
    case 2 => State(Open, map[], 1, 1, 1, 0)
    case 3 => State(HalfOpen, map[], 0, 1, 1, 1)
    case 4 => State(HalfOpen, map[1 := HalfOpen], 0, 1, 1, 1)
    case 5 => State(HalfOpen, map[1 := HalfOpen, 2 := HalfOpen], 0, 1, 1, 1)
    case 6 => State(Closed, map[2 := HalfOpen], 0, 1, 0, 1)
  }

  function Probing(k: nat): Event
    requires k < 6
  {
    [Begin(0), Finish(0, false), Fire, Begin(1), Begin(2), Finish(1, true)][k]
  }

  lemma ProbingStep(k: nat)
    requires k < 6
    ensures Enabled(TwoProbes(k), Probing(k)) && Step(TwoProbes(k), Probing(k)) == TwoProbes(k + 1)
  {
    match k
    case 0 => BeginStep(INIT, 0, map[0 := Closed]);
    case 1 => FinishStep(TwoProbes(1), 0, false, map[]);
    case 2 =>
    case 3 => BeginStep(TwoProbes(3), 1, map[1 := HalfOpen]);
    case 4 => BeginStep(TwoProbes(4), 2, map[1 := HalfOpen, 2 := HalfOpen]);
    case 5 => FinishStep(TwoProbes(5), 1, true, map[2 := HalfOpen]);
  }

  lemma BeginStep(s: State, call: CallId, calls: map<CallId, Breaker>)
    requires call !in s.calls && !s.breaker.Open? && calls == s.calls[call := s.breaker]
    ensures Enabled(s, Begin(call)) && Step(s, Begin(call)) == s.(calls := calls)
  {
  }

  lemma FinishStep(s: State, call: CallId, ok: bool, calls: map<CallId, Breaker>)
    requires call in s.calls && calls == s.calls - {call}
    ensures Enabled(s, Finish(call, ok)) && Step(s, Finish(call, ok)).calls == calls
  {
  }

  lemma {:induction false} ProbingRun(k: nat) returns (events: seq<Event>)
    requires k <= 6
    ensures After(TwoProbes(k), events) == TwoProbes(6)
    decreases 6 - k
  {
    hide TwoProbes, Step, Enabled;
    if k == 6 {
      events := [];
    } else {
      var rest := ProbingRun(k + 1);
      ProbingStep(k);
      AfterMore(TwoProbes(k), Probing(k), rest);
      events := [Probing(k)] + rest;
    }
  }

  /** With two probes under way one can close the breaker and the other open it again, without any failure of
      a call that saw Closed in between. */
  lemma TwoProbesTrip() returns (events: seq<Event>, e: Event)
    ensures Trips(After(INIT, events), e) && Step(After(INIT, events), e).recentFailures == 0
  {
    hide After, Trips, Step;
    events := ProbingRun(0);
    e := Finish(2, false);
    ProbeTrips(TwoProbes(6));
  }

  lemma ProbeTrips(s: State)
    requires s == State(Closed, map[2 := HalfOpen], 0, 1, 0, 1)
    ensures Trips(s, Finish(2, false)) && Step(s, Finish(2, false)).recentFailures == 0
  {
  }

  /** With one call at a time a threshold is honoured exactly when it is no more than one. */
  lemma SeriallyHonouredIffAtMostOne(threshold: nat)
    ensures ThresholdHonouredSerially(threshold) <==> threshold <= 1
  {
    hide After, OneAtATime, Trips, Step;
    if threshold <= 1 {
      forall events, e | OneAtATime(INIT, events) && Trips(After(INIT, events), e)
        ensures Enabled(After(INIT, events), e) && Step(After(INIT, events), e).recentFailures >= threshold
      {
        TripIsEnabled(After(INIT, events), e);
        SerialTripCounts(events, e);
      }
    } else {
      var events, e := FirstFailureTrips();
    }
  }

  lemma TripIsEnabled(s: State, e: Event)
    requires Trips(s, e)
    ensures Enabled(s, e)
  {
  }

  /** Over all interleavings not even a threshold of one is honoured. */
  lemma HonouredIffZero(threshold: nat)
    ensures ThresholdHonoured(threshold) <==> threshold == 0
  {
    hide After, Trips, Step;
    if threshold > 0 {
      var events, e := TwoProbesTrip();
    }
  }

  // ----- Late timers --------------------------------------------------------------------------------

  /** Two calls that saw Closed fail; the first timer lets a probe close the breaker. */
  function Late(k: nat): State
    requires k <= 7
  {
    match k
    case 0 => INIT
    case 1 => State(Closed, map[0 := Closed], 0, 0, 0, 0)
    case 2 => State(Closed, map[0 := Closed, 1 := Closed], 0, 0, 0, 0)
    case 3 => State(Open, map[1 := Closed], 1, 1, 1, 0)
    case 4 => State(Open, map[], 2, 2, 2, 0)
    case 5 => State(HalfOpen, map[], 1, 2, 2, 1)
    case 6 => State(HalfOpen, map[2 := HalfOpen], 1, 2, 2, 1)
    case 7 => State(Closed, map[], 1, 2, 0, 1)
  }

  function Lagging(k: nat): Event
    requires k < 7
  {
    [Begin(0), Begin(1), Finish(0, false), Finish(1, false), Fire, Begin(2), Finish(2, true)][k]
  }

  lemma LaggingStep(k: nat)
    requires k < 7
    ensures Enabled(Late(k), Lagging(k)) && Step(Late(k), Lagging(k)) == Late(k + 1)
  {
    match k
    case 0 => BeginStep(INIT, 0, map[0 := Closed]);
    case 1 => BeginStep(Late(1), 1, map[0 := Closed, 1 := Closed]);
    case 2 => FinishStep(Late(2), 0, false, map[1 := Closed]);
    case 3 => FinishStep(Late(3), 1, false, map[]);
    case 4 =>
    case 5 => BeginStep(Late(5), 2, map[2 := HalfOpen]);
    case 6 => FinishStep(Late(6), 2, true, map[]);
  }

  lemma {:induction false} LaggingRun(k: nat) returns (events: seq<Event>)
    requires k <= 7
    ensures After(Late(k), events) == Late(7)
    decreases 7 - k
  {
    hide Late, Step, Enabled;
    if k == 7 {
      events := [];
    } else {
      var rest := LaggingRun(k + 1);
      LaggingStep(k);
      AfterMore(Late(k), Lagging(k), rest);
      events := [Lagging(k)] + rest;
    }
  }

  /** A timer half-opens whatever it finds: a closed breaker at rest half-opens by itself exactly when a timer
      is left. */
  lemma HalfOpensIffTimerLeft(s: State)
    requires s.breaker.Closed? && s.calls == map[]
    ensures After(s, [Fire]).breaker.HalfOpen? <==> s.timers > 0
  {
    AfterOne(s, Fire);
  }

  /** And one can be left: the timer of a second failure fires after a probe has closed the breaker. */
  lemma ClosedHalfOpensAgain() returns (events: seq<Event>)
    ensures After(INIT, events).breaker.Closed? && After(INIT, events).calls == map[]
    ensures After(After(INIT, events), [Fire]).breaker.HalfOpen?
  {
    hide After, Step;
    events := LaggingRun(0);
    HalfOpensIffTimerLeft(Late(7));
  }
}
