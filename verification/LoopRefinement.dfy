/** Uninterrupted rounds of the two loops are runs of the pipeline's state machine, so that what is proved
    over its interleavings speaks of the objects. */
module LoopRefinement {
  import opened Collections
  import opened Wrappers
  import opened BinaryHeap
  import opened Scheduler
  import opened Pipeline
  import opened TrackerLoop
  import Rounds = ExecutorLoop
  import Tracker = TransactionTracker

  // ----- The tracker --------------------------------------------------------------------------------

  /** The pipe after the tracker's events, if each is possible when it is due. */
  function Tracks(config: Config, p: Pipe, events: seq<TrackEvent>): Option<Pipe> {
    if events == [] then Some(p) else
      match Tracks(config, p, events[..|events| - 1])
      case None => None
      case Some(q) =>
        var e := events[|events| - 1];
        if TrackEnabled(q, e) then Some(TrackStep(config, q, e)) else None
  }

  lemma TracksAppend(config: Config, p: Pipe, events: seq<TrackEvent>, e: TrackEvent)
    requires Tracks(config, p, events).Some? && TrackEnabled(Tracks(config, p, events).value, e)
    ensures Tracks(config, p, events + [e]) == Some(TrackStep(config, Tracks(config, p, events).value, e))
  {
    assert (events + [e])[..|events|] == events;
  }

  /** The pipe when the tracker has had the entries in `order` and is about to go on. */
  ghost predicate Midway(a: Answers, p: Pipe, pending: Entries, order: seq<Hash>, q: Pipe)
    requires Members(order) <= pending.Keys
  {
    && q.track == Scanning(Ids(pending) - Members(order))
    && q.tracked == Ids(Partway(a, pending, Members(order)))
    && q.log == Logged(a, pending, order, p.log)
    && q.sched == p.sched && q.exec == p.exec && q.hashes == p.hashes && SameElsewhere(p, q)
  }

  /** The endpoints' state and the known ids. */
  predicate SameElsewhere(p: Pipe, q: Pipe) {
    q.submits == p.submits && q.cancels == p.cancels && q.place.Keys == p.place.Keys
  }

  predicate KnowsIds(p: Pipe, pending: Entries) {
    forall h :: h in pending ==> pending[h].transactionId in p.place
  }

  /** What is known when an entry's turn comes. */
  ghost predicate InTurn(config: Config, a: Answers, p: Pipe, pending: Entries, order: seq<Hash>, q: Pipe, h: Hash) {
    && config.confirmationBlocks == a.confirmationBlocks
    && Members(order) <= pending.Keys && Distinct(order) && h in pending && h !in Members(order)
    && Members(order + [h]) == Members(order) + {h}
    && KnowsIds(p, pending) && Midway(a, p, pending, order, q)
  }

  lemma IdsFacts(a: Answers, pending: Entries, order: seq<Hash>, h: Hash)
    requires Members(order) <= pending.Keys && Distinct(order) && h in pending && h !in Members(order)
    requires Members(order + [h]) == Members(order) + {h}
    ensures Ids(pending) - Members(order + [h]) == Ids(pending) - Members(order) - {h}
    ensures h in Ids(pending) && Ids(pending)[h] == pending[h].transactionId && h in Ids(pending) - Members(order)
    ensures var before, after := Partway(a, pending, Members(order)), Partway(a, pending, Members(order + [h]));
            && h in Ids(before) && Ids(before)[h] == pending[h].transactionId
            && Ids(after) == if a.Leaves(h, pending[h]) then Ids(before) - {h} else Ids(before)
  {
    hide Partway, Members, Distinct, Logged;
    OneMore(a, pending, order, Members(order), h, []);
  }

  lemma TurnSkips(config: Config, a: Answers, p: Pipe, pending: Entries, order: seq<Hash>, q: Pipe, h: Hash)
    requires InTurn(config, a, p, pending, order, q, h) && !a.Due(h, pending[h])
    ensures TrackEnabled(q, Skip(h)) && Midway(a, p, pending, order + [h], TrackStep(config, q, Skip(h)))
  {
    hide Partway, Logged, Ids, Members, Distinct;
    OneMore(a, pending, order, Members(order), h, p.log);
    IdsFacts(a, pending, order, h);
  }

  lemma TurnStaysOpen(config: Config, a: Answers, p: Pipe, pending: Entries, order: seq<Hash>, q: Pipe, h: Hash)
    requires InTurn(config, a, p, pending, order, q, h) && a.Due(h, pending[h]) && !a.IsSettled(h)
    ensures var e := Check(h, a.receipt(h), a.stored(h));
            TrackEnabled(q, e) && Midway(a, p, pending, order + [h], TrackStep(config, q, e))
  {
    hide Partway, Logged, Ids, Tracker.Classify, Members, Distinct;
    OneMore(a, pending, order, Members(order), h, p.log);
    IdsFacts(a, pending, order, h);
  }

  lemma TurnFails(config: Config, a: Answers, p: Pipe, pending: Entries, order: seq<Hash>, q: Pipe, h: Hash)
    requires InTurn(config, a, p, pending, order, q, h) && a.Due(h, pending[h]) && a.IsSettled(h) && !a.stored(h)
    ensures var e := Check(h, a.receipt(h), false);
            && TrackEnabled(q, e) && TrackEnabled(TrackStep(config, q, e), WriteSettled(false))
            && Midway(a, p, pending, order + [h], TrackStep(config, TrackStep(config, q, e), WriteSettled(false)))
  {
    hide Partway, Logged, Ids, Tracker.Classify, Members, Distinct;
    OneMore(a, pending, order, Members(order), h, p.log);
    IdsFacts(a, pending, order, h);
  }

  lemma TurnSettles(config: Config, a: Answers, p: Pipe, pending: Entries, order: seq<Hash>, q: Pipe, h: Hash)
    requires InTurn(config, a, p, pending, order, q, h) && a.Due(h, pending[h]) && a.IsSettled(h) && a.stored(h)
    ensures var e := Check(h, a.receipt(h), true);
            && TrackEnabled(q, e) && TrackEnabled(TrackStep(config, q, e), WriteSettled(true))
            && TrackEnabled(TrackStep(config, TrackStep(config, q, e), WriteSettled(true)), Forget)
            && Midway(a, p, pending, order + [h],
                      TrackStep(config, TrackStep(config, TrackStep(config, q, e), WriteSettled(true)), Forget))
  {
    hide Partway, Logged, Ids, Tracker.Classify, Members, Distinct;
    OneMore(a, pending, order, Members(order), h, p.log);
    IdsFacts(a, pending, order, h);
  }

  /** An entry's turn, from one point between turns to the next. */
  lemma TurnIsRun(config: Config, a: Answers, p: Pipe, pending: Entries, order: seq<Hash>, before: seq<TrackEvent>,
                  h: Hash)
    returns (events: seq<TrackEvent>)
    requires Tracks(config, p, before).Some?
    requires InTurn(config, a, p, pending, order, Tracks(config, p, before).value, h)
    ensures Members(order + [h]) <= pending.Keys
    ensures Tracks(config, p, events).Some? && Midway(a, p, pending, order + [h], Tracks(config, p, events).value)
  {
    var q := Tracks(config, p, before).value;
    assert Members(order + [h]) <= pending.Keys;
    var e := Check(h, a.receipt(h), a.stored(h));
    if !a.Due(h, pending[h]) {
      TurnSkips(config, a, p, pending, order, q, h);
      hide *;
      TracksAppend(config, p, before, Skip(h));
      events := before + [Skip(h)];
    } else if !a.IsSettled(h) {
      TurnStaysOpen(config, a, p, pending, order, q, h);
      hide *;
      TracksAppend(config, p, before, e);
      events := before + [e];
    } else if !a.stored(h) {
      TurnFails(config, a, p, pending, order, q, h);
      hide *;
      TracksAppend(config, p, before, e);
      TracksAppend(config, p, before + [e], WriteSettled(false));
      events := before + [e] + [WriteSettled(false)];
    } else {
      TurnSettles(config, a, p, pending, order, q, h);
      hide *;
      TracksAppend(config, p, before, e);
      TracksAppend(config, p, before + [e], WriteSettled(true));
      TracksAppend(config, p, before + [e] + [WriteSettled(true)], Forget);
      events := before + [e] + [WriteSettled(true)] + [Forget];
    }
  }

  lemma MembersPrefix(order: seq<Hash>, k: nat)
    requires k < |order| && Distinct(order)
    ensures order[..k + 1] == order[..k] + [order[k]] && Distinct(order[..k])
    ensures Members(order[..k + 1]) == Members(order[..k]) + {order[k]} && order[k] !in Members(order[..k])
    ensures Members(order[..k]) <= Members(order) && order[k] in Members(order)
  {
    assert forall i :: 0 <= i < k ==> order[..k + 1][i] == order[i];
    assert order[..k + 1][k] == order[k];
  }

  lemma {:induction false} MidwayReached(config: Config, a: Answers, p: Pipe, pending: Entries, order: seq<Hash>,
                                         k: nat)
    returns (events: seq<TrackEvent>)
    requires config.confirmationBlocks == a.confirmationBlocks && p.track.Resting? && p.tracked == Ids(pending)
    requires KnowsIds(p, pending)
    requires Distinct(order) && Members(order) == pending.Keys && k <= |order|
    ensures Members(order[..k]) <= pending.Keys
    ensures Tracks(config, p, events).Some? && Midway(a, p, pending, order[..k], Tracks(config, p, events).value)
  {
    if k == 0 {
      assert order[..0] == [];
      TracksAppend(config, p, [], Snapshot);
      events := [] + [Snapshot];
      RoundBegins(a, pending, p.log);
    } else {
      MembersPrefix(order, k - 1);
      var before := MidwayReached(config, a, p, pending, order, k - 1);
      hide Midway, Tracks, Distinct;
      events := TurnIsRun(config, a, p, pending, order[..k - 1], before, order[k - 1]);
    }
  }

  /** A round of the tracker object is a run of the state machine's tracker, from rest to rest, with the
      same entries left and the same writes carried out. */
  lemma RoundIsRun(config: Config, a: Answers, p: Pipe, pending: Entries, order: seq<Hash>)
    returns (events: seq<TrackEvent>)
    requires config.confirmationBlocks == a.confirmationBlocks && p.track.Resting? && p.tracked == Ids(pending)
    requires KnowsIds(p, pending)
    requires Distinct(order) && Members(order) == pending.Keys
    ensures Tracks(config, p, events).Some?
    ensures var q := Tracks(config, p, events).value;
            && q.track.Resting? && q.tracked == Ids(AfterRound(a, pending))
            && q.log == Logged(a, pending, order, p.log) && q.sched == p.sched
            && q.exec == p.exec && q.hashes == p.hashes && SameElsewhere(p, q)
  {
    assert order[..|order|] == order;
    var before := MidwayReached(config, a, p, pending, order, |order|);
    var q := Tracks(config, p, before).value;
    assert Ids(pending) - Members(order) == map[];
    RoundEnds(a, pending);
    TracksAppend(config, p, before, EndScan);
    events := before + [EndScan];
  }

  // ----- The executor -------------------------------------------------------------------------------

  /** The pipe after the executor's events, if each is possible when it is due. */
  function Executes(p: Pipe, events: seq<ExecEvent>): Option<Pipe>
    decreases |events|
  {
    if events == [] then Some(p)
    else if !ExecEnabled(p, events[0]) then None
    else Executes(ExecStep(p, events[0]), events[1..])
  }

  lemma ExecutesFirst(p: Pipe, e: ExecEvent, events: seq<ExecEvent>)
    requires ExecEnabled(p, e)
    ensures Executes(p, [e] + events) == Executes(ExecStep(p, e), events)
  {
    assert ([e] + events)[1..] == events;
  }

  /** What the pipe holds of what a round works on. */
  function WorldOf(p: Pipe): Rounds.World {
    Rounds.World(p.sched, p.log, p.tracked)
  }

  /** The events that report a result, and retry after a failure. */
  lemma ReportIsRun(p: Pipe, at: int) returns (events: seq<ExecEvent>)
    requires p.exec.Reporting? && !p.exec.last
    ensures Executes(p, events).Some?
    ensures var q := Executes(p, events).value;
            && q.exec.Idle? && q.sched == CompletedTask(p.sched, p.exec.task.id, p.exec.success, at)
            && q.log == p.log && q.tracked == p.tracked
            && q.track == p.track && q.hashes == p.hashes && SameElsewhere(p, q)
  {
    hide Executes, WithoutId;
    var task, success := p.exec.task, p.exec.success;
    var p1 := ExecStep(p, InsertResult(at));
    var p2 := ExecStep(p1, LeaveProcessing);
    assert p2.sched == CompletedTask(p.sched, task.id, success, at);
    if p2.exec.Idle? {
      ExecutesNothing(p2);
      events := [InsertResult(at)] + ([LeaveProcessing] + []);
    } else {
      Rounds.IdleAfterReport(p.sched, task.id, success, at);
      var p3 := ExecStep(p2, TakeBack);
      ExecutesNothing(p3);
      ExecutesFirst(p2, TakeBack, []);
      events := [InsertResult(at)] + ([LeaveProcessing] + ([TakeBack] + []));
      ExecutesFirst(p1, LeaveProcessing, [TakeBack] + []);
      ExecutesFirst(p, InsertResult(at), [LeaveProcessing] + ([TakeBack] + []));
      return;
    }
    ExecutesFirst(p1, LeaveProcessing, []);
    ExecutesFirst(p, InsertResult(at), [LeaveProcessing] + []);
  }

  lemma ExecutesNothing(p: Pipe)
    ensures Executes(p, []) == Some(p)
  {
  }

  /** What an attempt does before the report, to a pipe whose executor holds the popped entry. */
  lemma AttemptIsRun(p: Pipe, attempt: Rounds.Attempt, stored: bool, tracking: bool, at: int)
    returns (events: seq<ExecEvent>)
    requires p.exec.Holding? && (attempt.Hashed? ==> attempt.hash !in p.hashes) && p.exec.task.id in p.place
    ensures Executes(p, events).Some? && Executes(p, events).value.exec.Idle?
    ensures var q := Executes(p, events).value;
            && q.track == p.track && SameElsewhere(p, q)
            && q.hashes == if attempt.Hashed? then p.hashes + {attempt.hash} else p.hashes
    ensures WorldOf(Executes(p, events).value) ==
            Rounds.AfterAttempt(WorldOf(p), p.exec.task, attempt, stored, tracking, at)
  {
    hide Executes, CompletedTask;
    match attempt
    case NoneAvailable =>
      var p1 := ExecStep(p, NoWallet);
      var report := ReportIsRun(p1, at);
      ExecutesFirst(p, NoWallet, report);
      events := [NoWallet] + report;
    case Error =>
      var p1 := ExecStep(p, SendError);
      var p2 := ExecStep(p1, WriteFailed(stored));
      var report := ReportIsRun(p2, at);
      ExecutesFirst(p1, WriteFailed(stored), report);
      ExecutesFirst(p, SendError, [WriteFailed(stored)] + report);
      events := [SendError] + ([WriteFailed(stored)] + report);
    case Hashed(hash) =>
      var p1 := ExecStep(p, SendOk(hash));
      var p2 := ExecStep(p1, WriteSubmitted(stored));
      var p3 := ExecStep(p2, Track(tracking));
      var report := ReportIsRun(p3, at);
      ExecutesFirst(p2, Track(tracking), report);
      ExecutesFirst(p1, WriteSubmitted(stored), [Track(tracking)] + report);
      ExecutesFirst(p, SendOk(hash), [WriteSubmitted(stored)] + ([Track(tracking)] + report));
      events := [SendOk(hash)] + ([WriteSubmitted(stored)] + ([Track(tracking)] + report));
  }

  /** A round of the executor object is a run of the state machine's executor, from idle to idle, with the
      same effect on the scheduler, the database and the tracker. */
  lemma NextIsRun(p: Pipe, attempt: Rounds.Attempt, stored: bool, tracking: bool, at: int)
    returns (events: seq<ExecEvent>)
    requires p.exec.Idle? && (attempt.Hashed? ==> attempt.hash !in p.hashes)
    requires Popped(p.sched).0.Some? ==> Popped(p.sched).0.value.id in p.place
    ensures Executes(p, events).Some? && Executes(p, events).value.exec.Idle?
    ensures var q := Executes(p, events).value;
            && q.track == p.track && SameElsewhere(p, q)
            && q.hashes == if attempt.Hashed? && Popped(p.sched).0.Some? then p.hashes + {attempt.hash} else p.hashes
    ensures WorldOf(Executes(p, events).value) == Rounds.AfterNext(WorldOf(p), attempt, stored, tracking, at)
  {
    hide Executes, Rounds.AfterAttempt, Pop;
    var p1 := ExecStep(p, PopTask);
    if Popped(p.sched).0.None? {
      ExecutesNothing(p1);
      ExecutesFirst(p, PopTask, []);
      events := [PopTask] + [];
    } else {
      var rest := AttemptIsRun(p1, attempt, stored, tracking, at);
      ExecutesFirst(p, PopTask, rest);
      events := [PopTask] + rest;
    }
  }
}
