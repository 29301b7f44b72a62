/** What the ledger of `TaskLifecycle` guarantees: where an id can be seen, also between the sections of one
    operation, how often it is retried and popped, that work runs out, and when a cancellation is final. */
module TaskGuarantees {
  import opened Wrappers
  import opened BinaryHeap
  import opened Scheduler
  import opened TaskLifecycle

  // ----- Uninterrupted operations -------------------------------------------------------------------

  /** The methods of the scheduler are the sections, one directly after the other. */
  lemma UninterruptedOperations(l: Life, id: Id, actor: Actor, success: bool, at: int)
    requires id in l.phase
    ensures AfterLeave(AfterInsert(l, id, success, at), id).sched == CompletedTask(l.sched, id, success, at)
    ensures AfterCancelProcessing(AfterCancelQueued(l, actor, id), actor).sched == CancelledTask(l.sched, id)
    ensures AfterClearFailed(AfterClearCompleted(l, at), at).sched == ClearedTasks(l.sched, at)
  {
    hide Push, WithoutId, Retain, HasTask, Since;
  }

  lemma UninterruptedSubmission(maxQueueSize: nat, l: Life, request: Request, at: int)
    ensures var checked := AfterCheck(maxQueueSize, l, request);
            if |l.sched.queue| < maxQueueSize then
              && request.id in checked.entering
              && AfterPush(checked, request.id, at).sched == Queued(l.sched, NewTask(request, at))
            else checked == l
  {
    hide Push;
  }

  lemma UninterruptedRetry(l: Life, id: Id, at: int)
    ensures var l' := AfterTakeBack(l, id);
            RetriedTask(l.sched, id, at) ==
            if TakenBack(l.sched, id).0.None? then l'.sched
            else if Again(l'.hands[id]).retryCount <= l'.hands[id].maxRetries then AfterRequeue(l', id, at).sched
            else AfterLeave(AfterInsert(l', id, false, at), id).sched
  {
    hide Push, WithoutId, TakenBack;
  }

  // ----- Where an id can be seen --------------------------------------------------------------------

  function StatusOfResult(standing: Standing): TaskStatus {
    match standing
    case Succeeded => TaskStatus.Completed
    case GaveUp => TaskStatus.Failed
    case Cleared => NotFound
  }

  /** The status that callers see of an id.  A reported id that is still listed is seen in processing; a
      task between the queues is not seen at all. */
  function Visible(l: Life, id: Id): TaskStatus {
    if id !in l.phase then NotFound else
      match l.phase[id]
      case Waiting(_) => TaskStatus.Pending
      case Running(_) => TaskStatus.Processing
      case Reported(standing, listed, _) => if listed then TaskStatus.Processing else StatusOfResult(standing)
      case _ => NotFound
  }

  /** The collections that hold an id, by its phase. */
  ghost predicate Placed(l: Life, id: Id) {
    && (HasTask(l.sched.queue, id) <==> id in l.phase && l.phase[id].Waiting?)
    && (HasTask(l.sched.processing, id) <==> id in l.phase && List.Processing.Is(l.phase[id]))
    && (id in l.sched.completed <==> id in l.phase && l.phase[id].Reported? && l.phase[id].standing.Succeeded?)
    && (id in l.sched.failed <==> id in l.phase && l.phase[id].Reported? && l.phase[id].standing.GaveUp?)
  }

  lemma PlacedIfAgrees(l: Life, id: Id)
    requires Agrees(l)
    ensures Placed(l, id) && FitsLedger(l, id) && StatusOf(l.sched, id) == Visible(l, id)
  {
    HoldsMembers(Queue, l.sched.queue, l.phase, id);
    HoldsMembers(List.Processing, l.sched.processing, l.phase, id);
    hide Holds, HasTask;
    assert FitsLedger(l, id);
  }

  /** In every reachable state, also between the sections of one operation, the ledger says which of the
      collections and hands hold an id, and what a status read at that moment returns. */
  lemma OnePlaceEach(maxQueueSize: nat, events: seq<Event>, id: Id)
    requires Reach(maxQueueSize, events).Some?
    ensures var l := Reach(maxQueueSize, events).value;
            && Placed(l, id) && StatusOf(l.sched, id) == Visible(l, id)
            && (id in l.entering <==> At(l, id, Entering))
            && (id in l.hands <==> id in l.phase && (l.phase[id].HandedOut? || l.phase[id].Between?))
  {
    RunAgrees(maxQueueSize, events);
    hide Reach;
    PlacedIfAgrees(Reach(maxQueueSize, events).value, id);
  }

  /** So an id is in two of the four collections exactly between the two sections of `complete_task`, and
      then they are processing and one of the results; it is never in three. */
  lemma TwoPlacesOnlyWhileReporting(maxQueueSize: nat, events: seq<Event>, id: Id)
    requires Reach(maxQueueSize, events).Some?
    ensures var l := Reach(maxQueueSize, events).value;
            var s := l.sched;
            && (HasTask(s.queue, id) ==> !HasTask(s.processing, id) && id !in s.completed && id !in s.failed)
            && !(id in s.completed && id in s.failed)
            && (HasTask(s.processing, id) && (id in s.completed || id in s.failed) <==>
                id in l.phase && l.phase[id].Reported? && l.phase[id].listed && !l.phase[id].standing.Cleared?)
  {
    OnePlaceEach(maxQueueSize, events, id);
    hide Reach, HasTask;
  }

  /** And a submitted id that was neither cancelled nor reported is in none of the four exactly while it is
      about to be pushed, handed out, or between the two sections of `retry_task`. */
  lemma NoPlaceOnlyInHands(maxQueueSize: nat, events: seq<Event>, id: Id)
    requires Reach(maxQueueSize, events).Some? && id in Reach(maxQueueSize, events).value.phase
    ensures var l := Reach(maxQueueSize, events).value;
            StatusOf(l.sched, id) == NotFound <==>
            || l.phase[id].Entering? || l.phase[id].HandedOut? || l.phase[id].Between?
            || l.phase[id].Dropped? || (l.phase[id].Reported? && l.phase[id].standing.Cleared? && !l.phase[id].listed)
  {
    OnePlaceEach(maxQueueSize, events, id);
    hide Reach, HasTask, StatusOf;
  }

  // ----- Bounds -------------------------------------------------------------------------------------

  /** No task is ever waiting or in processing with more than three retries, and none is popped more than four
      times: once and once for each retry. */
  lemma RetriesAndPopsBounded(maxQueueSize: nat, events: seq<Event>, id: Id)
    requires Reach(maxQueueSize, events).Some?
    ensures var l := Reach(maxQueueSize, events).value;
            && (forall t :: t in l.sched.queue || t in l.sched.processing ==> t.retryCount <= t.maxRetries == 3)
            && PopsOf(l, id) <= 4
  {
    RunAgrees(maxQueueSize, events);
    var l := Reach(maxQueueSize, events).value;
    forall t | t in l.sched.queue || t in l.sched.processing
      ensures t.retryCount <= t.maxRetries == 3
    {
      assert t in l.sched.queue ==> t in multiset(l.sched.queue) && TaskFits(Queue, l.phase, t);
      assert t in l.sched.processing ==> t in multiset(l.sched.processing) && TaskFits(List.Processing, l.phase, t);
    }
    assert FitsLedger(l, id);
  }

  /** What a section does to the queue: nothing, or one of the heap's operations. */
  lemma QueueAfter(maxQueueSize: nat, l: Life, e: Event)
    requires Enabled(l, e)
    ensures Step(maxQueueSize, l, e).sched.queue ==
            match e
            case PushTask(id, at) => Push(AtMost, l.sched.queue, NewTask(l.entering[id], at))
            case PopNext => Pop(AtMost, l.sched.queue).1
            case Requeue(id, at) => Push(AtMost, l.sched.queue, Rescheduled(Again(l.hands[id]), at))
            case CancelQueued(_, id) => NotQueued(l.sched, id).queue
            case _ => l.sched.queue
  {
    hide Push, Pop, Retain, WithoutId, TakenBack;
  }

  lemma StepKeepsHeap(maxQueueSize: nat, l: Life, e: Event)
    requires IsHeap(AtMost, l.sched.queue) && Enabled(l, e)
    ensures IsHeap(AtMost, Step(maxQueueSize, l, e).sched.queue)
  {
    hide IsHeap, Push, Pop, Retain, TotalPreorder, Step;
    OrdersAreTotal();
    QueueAfter(maxQueueSize, l, e);
    match e
    case PushTask(id, at) => PushHeap(AtMost, l.sched.queue, NewTask(l.entering[id], at));
    case PopNext => PopHeap(AtMost, l.sched.queue);
    case Requeue(id, at) => PushHeap(AtMost, l.sched.queue, Rescheduled(Again(l.hands[id]), at));
    case CancelQueued(_, id) => RetainHeap(AtMost, (t: ScheduledTask) => t.id != id, l.sched.queue);
    case _ =>
  }

  lemma {:induction false} RunKeepsHeap(maxQueueSize: nat, events: seq<Event>)
    requires Reach(maxQueueSize, events).Some?
    ensures IsHeap(AtMost, Reach(maxQueueSize, events).value.sched.queue)
  {
    if events != [] {
      hide IsHeap, Enabled, Step;
      RunKeepsHeap(maxQueueSize, events[..|events| - 1]);
      StepKeepsHeap(maxQueueSize, Reach(maxQueueSize, events[..|events| - 1]).value, events[|events| - 1]);
    }
  }

  /** In every reachable state the next task is one that no waiting task is less urgent than. */
  lemma NextTaskIsLeastUrgent(maxQueueSize: nat, events: seq<Event>)
    requires Reach(maxQueueSize, events).Some?
    ensures var s := Reach(maxQueueSize, events).value.sched;
            match Popped(s).0
            case None => s.queue == []
            case Some(task) => task in s.queue && forall t :: t in s.queue ==> NoMoreUrgent(task, t)
  {
    RunKeepsHeap(maxQueueSize, events);
    var queue := Reach(maxQueueSize, events).value.sched.queue;
    OrdersAreTotal();
    forall i: nat | i < |queue|
      ensures NoMoreUrgent(queue[0], queue[i])
    {
      TopIsGreatest(AtMost, queue, i);
      CmpReversesIntent(queue[i], queue[0]);
    }
  }

  // ----- The life of an id --------------------------------------------------------------------------

  /** The moves between phases. */
  predicate Moves(from: Phase, to: Phase) {
    match from
    case Entering => to == Waiting(0)
    case Waiting(r) => to == HandedOut(r) || to == Dropped(false)
    case HandedOut(r) => to == Running(r)
    case Running(r) => to == Reported(Succeeded, true, true) || to == Reported(GaveUp, true, true)
                       || to == Between(r) || to == Dropped(true)
    case Between(r) => if r < 3 then to == Waiting(r + 1) else to == Reported(GaveUp, false, true)
    case Dropped(busy) => busy && (to == Dropped(false)
                                   || to == Reported(Succeeded, false, true) || to == Reported(GaveUp, false, true))
    case Reported(standing, listed, leaving) =>
      && to.Reported? && (to.standing == standing || to.standing.Cleared?)
      && (to.listed ==> listed) && (to.leaving ==> leaving)
  }

  /** The event is a section of a worker, a pop that finds a task, or a push. */
  predicate Works(l: Life, e: Event) {
    match e
    case PushTask(_, _) => true
    case PopNext => l.sched.queue != []
    case Start(_) => true
    case InsertResult(_, _, _) => true
    case LeaveProcessing(_) => true
    case TakeBack(_) => true
    case Requeue(_, _) => true
    case _ => false
  }

  /** The id a working event works on. */
  function Worked(l: Life, e: Event): Id
    requires Works(l, e)
  {
    if e.PopNext? then l.sched.queue[0].id else e.id
  }

  lemma TopFits(l: Life)
    requires Agrees(l) && l.sched.queue != []
    ensures At(l, l.sched.queue[0].id, Waiting(l.sched.queue[0].retryCount))
    ensures Popped(l.sched).0 == Some(l.sched.queue[0])
  {
    assert l.sched.queue[0] in multiset(l.sched.queue);
    assert TaskFits(Queue, l.phase, l.sched.queue[0]);
  }

  /** A section of a worker moves the id it works on. */
  lemma WorkMoves(maxQueueSize: nat, l: Life, e: Event)
    requires Agrees(l) && Enabled(l, e) && Works(l, e)
    ensures var id, l' := Worked(l, e), Step(maxQueueSize, l, e);
            && id in l.phase && id in l'.phase && l'.phase[id] != l.phase[id] && Moves(l.phase[id], l'.phase[id])
            && !(l.phase[id].Reported? && l'.phase[id].Reported? && l'.phase[id].leaving)
            && l'.phase[id] != Dropped(true)
  {
    hide Holds, CancelsFit, Pop, Push, WithoutId, TakenBack;
    if e.PopNext? {
      TopFits(l);
    } else {
      assert FitsLedger(l, e.id);
      if e.TakeBack? {
        TakenIfRunning(l, e.id);
        assert AfterTakeBack(l, e.id).phase[e.id] ==
               if l.phase[e.id].Running? then Between(l.phase[e.id].retries) else Dropped(false);
      }
    }
  }

  lemma WorkLeavesOthers(maxQueueSize: nat, l: Life, e: Event, id: Id)
    requires Agrees(l) && Enabled(l, e) && Works(l, e) && id != Worked(l, e)
    ensures var l' := Step(maxQueueSize, l, e);
            (id in l'.phase <==> id in l.phase) && (id in l.phase ==> l'.phase[id] == l.phase[id])
  {
    hide Holds, CancelsFit, FitsLedger, Pop, Push, WithoutId, TakenBack, Retain;
    if e.PopNext? {
      TopFits(l);
    }
  }

  lemma OthersMove(maxQueueSize: nat, l: Life, e: Event, id: Id)
    requires Enabled(l, e) && !Works(l, e) && (e.CheckCapacity? ==> id in l.phase)
    ensures var l' := Step(maxQueueSize, l, e);
            && (id in l'.phase <==> id in l.phase)
            && (id in l.phase ==> l'.phase[id] == l.phase[id] || Moves(l.phase[id], l'.phase[id]))
  {
    hide WithoutId, Retain, Push, TakenBack;
  }

  /** Every event but a submission's check leaves an id in its phase or makes one of the moves, and knows no
      new id. */
  lemma StepMoves(maxQueueSize: nat, l: Life, e: Event, id: Id)
    requires Agrees(l) && Enabled(l, e) && (e.CheckCapacity? ==> id in l.phase)
    ensures var l' := Step(maxQueueSize, l, e);
            && (id in l'.phase <==> id in l.phase)
            && (id in l.phase ==> l'.phase[id] == l.phase[id] || Moves(l.phase[id], l'.phase[id]))
  {
    hide Agrees, Enabled, Step, Moves, Works, Worked;
    if !Works(l, e) {
      OthersMove(maxQueueSize, l, e, id);
    } else if id == Worked(l, e) {
      WorkMoves(maxQueueSize, l, e);
    } else {
      WorkLeavesOthers(maxQueueSize, l, e, id);
    }
  }

  // ----- Work runs out ------------------------------------------------------------------------------

  /** How many pushes, pops and sections of workers an id can still take. */
  function Remaining(phase: Phase): nat {
    match phase
    case Entering => 4 * MAX_RETRIES + 6
    case Waiting(r) => if r <= MAX_RETRIES then 4 * (MAX_RETRIES - r) + 5 else 0
    case HandedOut(r) => if r <= MAX_RETRIES then 4 * (MAX_RETRIES - r) + 4 else 0
    case Running(r) => if r <= MAX_RETRIES then 4 * (MAX_RETRIES - r) + 3 else 0
    case Between(r) => if r <= MAX_RETRIES then 4 * (MAX_RETRIES - r) + 2 else 0
    case Dropped(busy) => if busy then 2 else 0
    case Reported(_, _, leaving) => if leaving then 1 else 0
  }

  function RemainingAt(l: Life, id: Id): nat {
    if id in l.phase then Remaining(l.phase[id]) else 0
  }

  function Work(l: Life, ids: seq<Id>): nat {
    if ids == [] then 0 else RemainingAt(l, ids[0]) + Work(l, ids[1..])
  }

  lemma {:induction false} WorkFalls(l: Life, l': Life, ids: seq<Id>)
    requires forall id :: id in ids ==> RemainingAt(l', id) <= RemainingAt(l, id)
    ensures Work(l', ids) <= Work(l, ids)
    ensures (exists id :: id in ids && RemainingAt(l', id) < RemainingAt(l, id)) ==> Work(l', ids) < Work(l, ids)
  {
    if ids != [] {
      assert ids[0] in ids;
      WorkFalls(l, l', ids[1..]);
      if id :| id in ids && RemainingAt(l', id) < RemainingAt(l, id) {
        assert id == ids[0] || id in ids[1..];
      }
    }
  }

  function Retries(phase: Phase): nat {
    if phase.Waiting? || phase.HandedOut? || phase.Running? || phase.Between? then phase.retries else 0
  }

  lemma MovesUseWork(from: Phase, to: Phase)
    requires Moves(from, to) && Retries(from) <= MAX_RETRIES
    ensures Remaining(to) <= Remaining(from)
    ensures to == from || to == Dropped(true) || (from.Reported? && (to.leaving || !from.leaving))
            || Remaining(to) < Remaining(from)
  {
  }

  /** Apart from submissions' checks no event gives any id more work, and every working event takes some
      away. */
  lemma StepUsesWork(maxQueueSize: nat, l: Life, e: Event, id: Id)
    requires Agrees(l) && Enabled(l, e) && !e.CheckCapacity?
    ensures RemainingAt(Step(maxQueueSize, l, e), id) <= RemainingAt(l, id)
    ensures Works(l, e) && id == Worked(l, e) ==> RemainingAt(Step(maxQueueSize, l, e), id) < RemainingAt(l, id)
  {
    var l' := Step(maxQueueSize, l, e);
    StepMoves(maxQueueSize, l, e, id);
    if Works(l, e) && id == Worked(l, e) {
      WorkMoves(maxQueueSize, l, e);
    }
    hide Step, Holds, CancelsFit;
    if id in l.phase && l'.phase[id] != l.phase[id] {
      assert FitsLedger(l, id);
      MovesUseWork(l.phase[id], l'.phase[id]);
    }
  }

  /** How many of the events, up to one that is not allowed, are pushes, pops of a task or sections of
      workers. */
  function WorkEvents(maxQueueSize: nat, l: Life, events: seq<Event>): nat
    decreases |events|
  {
    if events == [] || !Enabled(l, events[0]) then 0 else
      (if Works(l, events[0]) then 1 else 0) + WorkEvents(maxQueueSize, Step(maxQueueSize, l, events[0]), events[1..])
  }

  /** An event that is no submission's check knows no new id, and what it does to the work of one. */
  ghost predicate NoMoreWork(l: Life, l': Life, id: Id) {
    (id in l'.phase ==> id in l.phase) && RemainingAt(l', id) <= RemainingAt(l, id)
  }

  lemma NoMoreWorkAt(maxQueueSize: nat, l: Life, e: Event, id: Id)
    requires Agrees(l) && Enabled(l, e) && !e.CheckCapacity?
    ensures NoMoreWork(l, Step(maxQueueSize, l, e), id)
    ensures Works(l, e) && id == Worked(l, e) ==>
              id in l.phase && RemainingAt(Step(maxQueueSize, l, e), id) < RemainingAt(l, id)
  {
    hide Agrees, Enabled, Step, Works, Worked, RemainingAt, Moves;
    StepUsesWork(maxQueueSize, l, e, id);
    StepMoves(maxQueueSize, l, e, id);
    if Works(l, e) {
      WorkMoves(maxQueueSize, l, e);
    }
  }

  lemma StepLessWork(maxQueueSize: nat, l: Life, e: Event, ids: seq<Id>)
    requires Agrees(l) && Enabled(l, e) && !e.CheckCapacity? && forall id :: id in l.phase ==> id in ids
    ensures forall id :: id in Step(maxQueueSize, l, e).phase ==> id in ids
    ensures Work(Step(maxQueueSize, l, e), ids) + (if Works(l, e) then 1 else 0) <= Work(l, ids)
  {
    hide Agrees, Enabled, Step, Works, Worked, RemainingAt, Work;
    var l' := Step(maxQueueSize, l, e);
    forall id
      ensures NoMoreWork(l, l', id)
    {
      NoMoreWorkAt(maxQueueSize, l, e, id);
    }
    if Works(l, e) {
      NoMoreWorkAt(maxQueueSize, l, e, Worked(l, e));
    }
    forall id | id in ids || id in l'.phase
      ensures id in ids && RemainingAt(l', id) <= RemainingAt(l, id)
    {
      assert NoMoreWork(l, l', id);
    }
    WorkFalls(l, l', ids);
  }

  /** Once submissions stop, the work left only falls: from a state in agreement with the ledger, any further
      run holds at most `Work` pushes, pops of a task and sections of workers together. */
  lemma {:induction false} WorkRunsOut(maxQueueSize: nat, l: Life, events: seq<Event>, ids: seq<Id>)
    requires Agrees(l) && forall e :: e in events ==> !e.CheckCapacity?
    requires forall id :: id in l.phase ==> id in ids
    ensures WorkEvents(maxQueueSize, l, events) <= Work(l, ids)
    decreases |events|
  {
    if events != [] && Enabled(l, events[0]) {
      hide Step, Agrees, Works, Enabled, Work;
      var e, l' := events[0], Step(maxQueueSize, l, events[0]);
      assert e in events;
      StepAgrees(maxQueueSize, l, e);
      StepLessWork(maxQueueSize, l, e, ids);
      WorkRunsOut(maxQueueSize, l', events[1..], ids);
    }
  }

  // ----- When a cancellation is final ---------------------------------------------------------------

  /** The state after the events, up to one that is not allowed. */
  function Then(maxQueueSize: nat, l: Life, events: seq<Event>): Life
    decreases |events|
  {
    if events == [] || !Enabled(l, events[0]) then l
    else Then(maxQueueSize, Step(maxQueueSize, l, events[0]), events[1..])
  }

  /** No continuation that the protocol allows ever makes the id visible again. */
  ghost predicate GoneForGood(maxQueueSize: nat, l: Life, id: Id) {
    forall events :: StatusOf(Then(maxQueueSize, l, events).sched, id) == NotFound
  }

  /** In nobody's hands and without a result. */
  predicate Dead(phase: Phase) {
    phase == Dropped(false) || (phase.Reported? && phase.standing.Cleared? && !phase.listed)
  }

  lemma {:induction false} DeadStaysGone(maxQueueSize: nat, l: Life, events: seq<Event>, id: Id)
    requires Agrees(l) && id in l.phase && Dead(l.phase[id])
    ensures StatusOf(Then(maxQueueSize, l, events).sched, id) == NotFound
    decreases |events|
  {
    hide Agrees, Step, StatusOf, Enabled, FitsLedger, Placed;
    PlacedIfAgrees(l, id);
    if events != [] && Enabled(l, events[0]) {
      StepAgrees(maxQueueSize, l, events[0]);
      StepMoves(maxQueueSize, l, events[0], id);
      DeadStaysGone(maxQueueSize, Step(maxQueueSize, l, events[0]), events[1..], id);
    }
  }

  lemma DeadIsGoneForGood(maxQueueSize: nat, l: Life, id: Id)
    requires Agrees(l) && id in l.phase && Dead(l.phase[id])
    ensures GoneForGood(maxQueueSize, l, id)
  {
    hide Agrees, Then;
    forall events
      ensures StatusOf(Then(maxQueueSize, l, events).sched, id) == NotFound
    {
      DeadStaysGone(maxQueueSize, l, events, id);
    }
  }

  /** An id that is seen now is not gone. */
  lemma SeenIsNotGone(maxQueueSize: nat, l: Life, id: Id)
    requires Agrees(l) && Visible(l, id) != NotFound
    ensures !GoneForGood(maxQueueSize, l, id)
  {
    hide Agrees, StatusOf, FitsLedger, Placed;
    PlacedIfAgrees(l, id);
    assert StatusOf(Then(maxQueueSize, l, []).sched, id) != NotFound;
  }

  /** A worker's report makes an id visible that was cancelled under its hands. */
  lemma ReportRevives(maxQueueSize: nat, l: Life, id: Id)
    requires Agrees(l) && At(l, id, Dropped(true))
    ensures !GoneForGood(maxQueueSize, l, id)
  {
    hide Agrees, StatusOf, WithoutId, FitsLedger, Placed;
    var e := InsertResult(id, true, 0);
    var l' := Step(maxQueueSize, l, e);
    StepAgrees(maxQueueSize, l, e);
    assert At(l', id, Reported(Succeeded, false, true));
    hide Step;
    PlacedIfAgrees(l', id);
    assert [e][1..] == [];
    assert StatusOf(Then(maxQueueSize, l', []).sched, id) == TaskStatus.Completed;
    assert StatusOf(Then(maxQueueSize, l, [e]).sched, id) == TaskStatus.Completed;
  }

  /** The first section of a cancellation finds an id exactly when it waits; from then on it is gone for good,
      already before the second section. */
  lemma FoundWaitingIsFinal(maxQueueSize: nat, l: Life, actor: Actor, id: Id)
    requires Agrees(l) && actor !in l.cancels
    ensures var l' := AfterCancelQueued(l, actor, id);
            && (l'.cancels[actor].found <==> id in l.phase && l.phase[id].Waiting?)
            && (l'.cancels[actor].found ==> GoneForGood(maxQueueSize, l', id))
  {
    hide Agrees, HasTask, NotQueued, GoneForGood;
    PlacedIfAgrees(l, id);
    CancelQueuedAgrees(l, actor, id);
    var l' := AfterCancelQueued(l, actor, id);
    if l'.cancels[actor].found {
      DeadIsGoneForGood(maxQueueSize, l', id);
    }
  }

  /** The answer that the second section of a cancellation makes up. */
  predicate Answer(l: Life, actor: Actor)
    requires actor in l.cancels
  {
    l.cancels[actor].found || HasTask(l.sched.processing, l.cancels[actor].id)
  }

  predicate ResultCleared(phase: Phase) {
    phase.Reported? && phase.standing.Cleared?
  }

  lemma AnswerPhases(l: Life, actor: Actor)
    requires Agrees(l) && actor in l.cancels
    ensures var id := l.cancels[actor].id;
            && (l.cancels[actor].found ==> At(l, id, Dropped(false)))
            && (Answer(l, actor) && !l.cancels[actor].found ==> id in l.phase && List.Processing.Is(l.phase[id]))
  {
    hide HasTask, FitsLedger, Holds;
    PlacedIfAgrees(l, l.cancels[actor].id);
  }

  /** Whatever happened between its sections, a cancellation that answers true is final exactly when its first
      section found the id, or when the result of the id had been cleared before its worker left.  Otherwise
      its second section found a task that runs, which disappears but comes back as completed or failed when
      the worker reports, or one that is already reported, whose result shows at once. */
  lemma CancellationFinalIffFoundWaiting(maxQueueSize: nat, l: Life, actor: Actor)
    requires Agrees(l) && actor in l.cancels && Answer(l, actor)
    ensures var id, l' := l.cancels[actor].id, AfterCancelProcessing(l, actor);
            && id in l.phase
            && StatusOf(l'.sched, id) ==
               (if l.phase[id].Reported? then StatusOfResult(l.phase[id].standing) else NotFound)
            && (GoneForGood(maxQueueSize, l', id) <==> l.cancels[actor].found || ResultCleared(l.phase[id]))
  {
    hide Agrees, Answer, NotProcessing, StatusOf, GoneForGood, Placed, FitsLedger;
    var id, l' := l.cancels[actor].id, AfterCancelProcessing(l, actor);
    AnswerPhases(l, actor);
    CancelProcessingAgrees(l, actor);
    PlacedIfAgrees(l', id);
    if Dead(l'.phase[id]) {
      DeadIsGoneForGood(maxQueueSize, l', id);
    } else if l'.phase[id] == Dropped(true) {
      ReportRevives(maxQueueSize, l', id);
    } else {
      SeenIsNotGone(maxQueueSize, l', id);
    }
  }
}
