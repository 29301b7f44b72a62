/** Any sequence of calls on the objects - submitting, cancelling, rounds of the executor and of the tracker,
    each uninterrupted - is one of the interleavings of the pipeline, so its guarantees hold of the objects. */
module ObjectRuns {
  import opened Collections
  import opened Wrappers
  import opened BinaryHeap
  import opened Scheduler
  import opened Pipeline
  import opened PipelineSafety
  import opened TrackerLoop
  import opened LoopRefinement
  import Rounds = ExecutorLoop

  // ----- Steps are reached --------------------------------------------------------------------------

  lemma ReachedAppend(config: Config, events: seq<Event>, e: Event)
    requires Reached(config, events).Some? && Pipeline.Enabled(Reached(config, events).value, e)
    ensures Reached(config, events + [e]) == Some(Pipeline.Step(config, Reached(config, events).value, e))
  {
    assert (events + [e])[..|events|] == events;
  }

  lemma {:induction false} TracksIsReached(config: Config, before: seq<Event>, events: seq<TrackEvent>)
    returns (after: seq<Event>)
    requires Reached(config, before).Some? && Tracks(config, Reached(config, before).value, events).Some?
    ensures Reached(config, after) == Tracks(config, Reached(config, before).value, events)
  {
    if events == [] {
      after := before;
    } else {
      var n := |events| - 1;
      var front := TracksIsReached(config, before, events[..n]);
      hide Reached;
      ReachedAppend(config, front, Tracking(events[n]));
      after := front + [Tracking(events[n])];
    }
  }

  lemma {:induction false} ExecutesIsReached(config: Config, before: seq<Event>, events: seq<ExecEvent>)
    returns (after: seq<Event>)
    requires Reached(config, before).Some? && Executes(Reached(config, before).value, events).Some?
    ensures Reached(config, after) == Executes(Reached(config, before).value, events)
    decreases |events|
  {
    hide Reached;
    if events == [] {
      after := before;
    } else {
      ReachedAppend(config, before, Executor(events[0]));
      after := ExecutesIsReached(config, before + [Executor(events[0])], events[1..]);
    }
  }

  // ----- Calls --------------------------------------------------------------------------------------

  /** What the scheduler, the database and the tracker hold, and the ids and hashes used so far. */
  datatype Objects = Objects(sched: Sched, log: seq<Write>, pending: Entries, known: set<Id>, hashes: set<Hash>)

  const NOTHING := Objects(Sched([], [], map[], map[]), [], map[], {}, {})

  datatype Call =
    | Submit(request: Request, at: int)
    | Cancel(id: Id, stored: bool)
    | ExecuteNext(attempt: Rounds.Attempt, stored: bool, at: int)
    | ProcessPending(a: Answers, order: seq<Hash>)

  predicate Possible(config: Config, o: Objects, c: Call) {
    match c
    case Submit(request, _) => request.id !in o.known
    case Cancel(_, _) => true
    case ExecuteNext(attempt, _, _) => attempt.Hashed? ==> attempt.hash !in o.hashes
    case ProcessPending(a, order) =>
      a.confirmationBlocks == config.confirmationBlocks && Distinct(order) && Members(order) == o.pending.Keys
  }

  function Submitted(config: Config, o: Objects, request: Request, at: int): Objects {
    o.(known := o.known + {request.id},
       sched := if |o.sched.queue| < config.maxQueueSize then Queued(o.sched, NewTask(request, at)) else o.sched)
  }

  function Cancelled(o: Objects, id: Id, stored: bool): Objects {
    var found := HasTask(o.sched.queue, id) || HasTask(o.sched.processing, id);
    o.(sched := CancelledTask(o.sched, id), log := if found then Wrote(o.log, id, Status.Cancelled, stored) else o.log)
  }

  function Executed(o: Objects, attempt: Rounds.Attempt, stored: bool, at: int): Objects {
    var after := Rounds.AfterNext(Rounds.World(o.sched, o.log, Ids(o.pending)), attempt, stored, true, at);
    var top := Popped(o.sched).0;
    if attempt.Hashed? && top.Some? then
      Objects(after.sched, after.log, o.pending[attempt.hash := PendingTransaction(top.value.id, at, 0)], o.known,
              o.hashes + {attempt.hash})
    else o.(sched := after.sched, log := after.log)
  }

  function Processed(o: Objects, a: Answers, order: seq<Hash>): Objects
    requires Members(order) == o.pending.Keys
  {
    o.(pending := AfterRound(a, o.pending), log := Logged(a, o.pending, order, o.log))
  }

  function Called(config: Config, o: Objects, c: Call): Objects
    requires Possible(config, o, c)
  {
    match c
    case Submit(request, at) => Submitted(config, o, request, at)
    case Cancel(id, stored) => Cancelled(o, id, stored)
    case ExecuteNext(attempt, stored, at) => Executed(o, attempt, stored, at)
    case ProcessPending(a, order) => Processed(o, a, order)
  }

  function AllCalled(config: Config, calls: seq<Call>): Option<Objects> {
    if calls == [] then Some(NOTHING) else
      match AllCalled(config, calls[..|calls| - 1])
      case None => None
      case Some(o) =>
        if Possible(config, o, calls[|calls| - 1]) then Some(Called(config, o, calls[|calls| - 1])) else None
  }

  // ----- Calls are runs of the pipeline -------------------------------------------------------------

  /** Between calls nobody is under way. */
  ghost predicate Represents(p: Pipe, o: Objects) {
    && p.sched == o.sched && p.log == o.log && p.tracked == Ids(o.pending)
    && p.place.Keys == o.known && p.hashes == o.hashes
    && p.exec.Idle? && p.track.Resting? && p.submits == map[] && p.cancels == map[]
  }

  lemma SubmitIsRun(config: Config, events: seq<Event>, o: Objects, request: Request, at: int)
    returns (after: seq<Event>)
    requires Reached(config, events).Some? && Represents(Reached(config, events).value, o)
    requires request.id !in o.known
    ensures Reached(config, after).Some?
    ensures Represents(Reached(config, after).value, Submitted(config, o, request, at))
  {
    hide Reached, Queued;
    var p := Reached(config, events).value;
    var store, check, push := Gate(StoreRow(0, request)), Gate(CheckQueue(0)), Gate(GateEvent.PushTask(0, at));
    ReachedAppend(config, events, store);
    ReachedAppend(config, events + [store], check);
    after := events + [store] + [check];
    var p2 := Reached(config, after).value;
    assert p.submits[0 := Stored(request)] - {0} == map[];
    if |o.sched.queue| < config.maxQueueSize {
      ReachedAppend(config, after, push);
      after := after + [push];
      assert p2.submits - {0} == map[];
    }
  }

  /** The two sections of a cancellation without a break, in any state: they go on to write exactly if one of
      the two collections held the id. */
  lemma UninterruptedCancel(p: Pipe, actor: Actor, id: Id)
    requires actor !in p.cancels
    ensures var q := AfterCancelProcessing(AfterCancelQueued(p, actor, id), actor);
            && q.sched == CancelledTask(p.sched, id)
            && (actor in q.cancels <==> HasTask(p.sched.queue, id) || HasTask(p.sched.processing, id))
            && (actor in q.cancels ==> q.cancels[actor] == Decided(id))
  {
    hide Retain, WithoutId, HasTask;
  }

  lemma CancelIsRun(config: Config, events: seq<Event>, o: Objects, id: Id, stored: bool) returns (after: seq<Event>)
    requires Reached(config, events).Some? && Represents(Reached(config, events).value, o)
    ensures Reached(config, after).Some?
    ensures Represents(Reached(config, after).value, Cancelled(o, id, stored))
  {
    RunKeeps(config, events);
    hide Reached, NotQueued, WithoutId, HasTask, Inv;
    var p := Reached(config, events).value;
    QueuedIsKnown(p, id);
    var queued, processing := Gate(GateEvent.CancelQueued(0, id)), Gate(GateEvent.CancelProcessing(0));
    var write := Gate(WriteCancelled(0, stored));
    ReachedAppend(config, events, queued);
    ReachedAppend(config, events + [queued], processing);
    after := events + [queued] + [processing];
    var p2 := Reached(config, after).value;
    CancelSections(p, id);
    if 0 in p2.cancels {
      ReachedAppend(config, after, write);
      after := after + [write];
    }
    assert p2.cancels - {0} == map[];
  }

  /** What a cancellation can find is known, and nothing is in processing. */
  lemma QueuedIsKnown(p: Pipe, id: Id)
    requires Inv(p)
    ensures HasTask(p.sched.queue, id) ==> id in p.place
    ensures p.sched.processing == [] && !HasTask(NotQueued(p.sched, id).processing, id)
  {
    if HasTask(p.sched.queue, id) {
      QueuedMeansQueueing(p.sched.queue, p.place, id);
    }
    hide Inv, Retain;
  }

  /** The first two sections, one directly after the other. */
  lemma CancelSections(p: Pipe, id: Id)
    requires p.cancels == map[] && !HasTask(NotQueued(p.sched, id).processing, id)
    ensures var p1 := AfterCancelQueued(p, 0, id);
            var p2 := AfterCancelProcessing(p1, 0);
            && p2.sched == CancelledTask(p.sched, id) && p2.log == p.log
            && p2.cancels == (if HasTask(p.sched.queue, id) then map[0 := Decided(id)] else map[])
            && p2.place == p1.place
  {
    hide NotQueued, WithoutId, HasTask;
  }

  lemma ExecuteIsRun(config: Config, events: seq<Event>, o: Objects, attempt: Rounds.Attempt, stored: bool, at: int)
    returns (after: seq<Event>)
    requires Reached(config, events).Some? && Represents(Reached(config, events).value, o)
    requires attempt.Hashed? ==> attempt.hash !in o.hashes
    ensures Reached(config, after).Some?
    ensures Represents(Reached(config, after).value, Executed(o, attempt, stored, at))
  {
    RunKeeps(config, events);
    hide Reached, Executes, Inv, Pop, Rounds.AfterNext;
    var p := Reached(config, events).value;
    PoppedIsKnown(p);
    var round := NextIsRun(p, attempt, stored, true, at);
    after := ExecutesIsReached(config, events, round);
    NewIds(o, attempt, stored, at);
  }

  lemma PoppedIsKnown(p: Pipe)
    requires Inv(p)
    ensures Popped(p.sched).0.Some? ==> Popped(p.sched).0.value.id in p.place
  {
    hide Pop;
    var (top, sched) := Popped(p.sched);
    if top.Some? {
      PopTakesOne(multiset(p.sched.queue), p.place, top.value, multiset(sched.queue));
    }
  }

  lemma NewIds(o: Objects, attempt: Rounds.Attempt, stored: bool, at: int)
    ensures var after := Rounds.AfterNext(Rounds.World(o.sched, o.log, Ids(o.pending)), attempt, stored, true, at);
            after.tracked == Ids(Executed(o, attempt, stored, at).pending)
  {
    hide Pop, WithoutId;
  }

  lemma ProcessIsRun(config: Config, events: seq<Event>, o: Objects, a: Answers, order: seq<Hash>)
    returns (after: seq<Event>)
    requires Reached(config, events).Some? && Represents(Reached(config, events).value, o)
    requires Possible(config, o, ProcessPending(a, order))
    ensures Reached(config, after).Some?
    ensures Represents(Reached(config, after).value, Processed(o, a, order))
  {
    RunKeeps(config, events);
    hide Reached, Tracks, Inv, Logged;
    var p := Reached(config, events).value;
    TrackedIsKnown(p, o.pending);
    var round := RoundIsRun(config, a, p, o.pending, order);
    after := TracksIsReached(config, events, round);
  }

  lemma TrackedIsKnown(p: Pipe, pending: Entries)
    requires Inv(p) && p.track.Resting? && p.tracked == Ids(pending)
    ensures KnowsIds(p, pending)
  {
    forall h | h in pending
      ensures pending[h].transactionId in p.place
    {
      assert h in p.tracked;
    }
  }

  /** Every sequence of calls is one of the pipeline's interleavings. */
  lemma {:induction false} CallsAreRun(config: Config, calls: seq<Call>) returns (events: seq<Event>)
    requires AllCalled(config, calls).Some?
    ensures Reached(config, events).Some? && Represents(Reached(config, events).value, AllCalled(config, calls).value)
  {
    if calls == [] {
      events := [];
    } else {
      hide Reached, Represents, Submitted, Cancelled, Executed, Processed;
      var n := |calls| - 1;
      var before := CallsAreRun(config, calls[..n]);
      var o := AllCalled(config, calls[..n]).value;
      match calls[n]
      case Submit(request, at) => events := SubmitIsRun(config, before, o, request, at);
      case Cancel(id, stored) => events := CancelIsRun(config, before, o, id, stored);
      case ExecuteNext(attempt, stored, at) => events := ExecuteIsRun(config, before, o, attempt, stored, at);
      case ProcessPending(a, order) => events := ProcessIsRun(config, before, o, a, order);
    }
  }

  /** So over every sequence of calls on the objects no status write follows a terminal one of the same
      transaction. */
  lemma ObjectsWriteOneTerminalStatus(config: Config, calls: seq<Call>, i: nat, j: nat)
    requires AllCalled(config, calls).Some? && i < j < |AllCalled(config, calls).value.log|
    requires AllCalled(config, calls).value.log[i].id == AllCalled(config, calls).value.log[j].id
    ensures !AllCalled(config, calls).value.log[i].status.Terminal()
  {
    var events := CallsAreRun(config, calls);
    hide Reached, AllCalled;
    AtMostOneTerminalWrite(config, events, i, j);
  }
}
