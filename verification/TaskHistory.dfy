/** What the scheduler's tasks and results say about the past, read off the events of a run alone, and what
    it means for the task handed out next and for the results that a clearing keeps. */
module TaskHistory {
  import opened Wrappers
  import opened BinaryHeap
  import opened Scheduler
  import opened TaskLifecycle
  import TaskGuarantees

  // ----- The past of an id --------------------------------------------------------------------------

  /** The request last submitted under the id. */
  function Submitted(events: seq<Event>, id: Id): Option<Request> {
    if events == [] then None else
      match events[|events| - 1]
      case CheckCapacity(request) => if request.id == id then Some(request) else Submitted(events[..|events| - 1], id)
      case _ => Submitted(events[..|events| - 1], id)
  }

  /** When the id was last pushed as a new task. */
  function PushedAt(events: seq<Event>, id: Id): int {
    if events == [] then 0 else
      match events[|events| - 1]
      case PushTask(i, at) => if i == id then at else PushedAt(events[..|events| - 1], id)
      case _ => PushedAt(events[..|events| - 1], id)
  }

  /** How often the id was put back for a retry, and when it last was. */
  function Requeues(events: seq<Event>, id: Id): nat {
    if events == [] then 0
    else Requeues(events[..|events| - 1], id) +
         var e := events[|events| - 1]; if e.Requeue? && e.id == id then 1 else 0
  }

  function RequeuedAt(events: seq<Event>, id: Id): int {
    if events == [] then 0 else
      match events[|events| - 1]
      case Requeue(i, at) => if i == id then at else RequeuedAt(events[..|events| - 1], id)
      case _ => RequeuedAt(events[..|events| - 1], id)
  }

  /** When the id was last reported with this outcome. */
  function ReportedAt(events: seq<Event>, id: Id, success: bool): int {
    if events == [] then 0 else
      match events[|events| - 1]
      case InsertResult(i, ok, at) =>
        if i == id && ok == success then at else ReportedAt(events[..|events| - 1], id, success)
      case _ => ReportedAt(events[..|events| - 1], id, success)
  }

  /** When the id is due: when it was pushed or, once retried, five seconds for each retry after its last
      return to the queue. */
  function DueAt(events: seq<Event>, id: Id): int {
    if Requeues(events, id) == 0 then PushedAt(events, id) else RequeuedAt(events, id) + 5 * Requeues(events, id)
  }

  // ----- Tasks and results --------------------------------------------------------------------------

  ghost predicate IsHistory(events: seq<Event>, t: ScheduledTask) {
    && t.id == t.request.id && Submitted(events, t.id) == Some(t.request)
    && t.priority == t.request.priority.Weight()
    && t.createdAt == PushedAt(events, t.id)
    && t.scheduledAt == DueAt(events, t.id)
    && t.retryCount == Requeues(events, t.id)
  }

  ghost predicate TasksAreHistory(events: seq<Event>, l: Life) {
    && (forall t :: t in l.sched.queue ==> IsHistory(events, t))
    && (forall t :: t in l.sched.processing ==> IsHistory(events, t))
    && (forall id :: id in l.hands ==> IsHistory(events, l.hands[id]))
    && forall id :: id in l.entering ==> Submitted(events, id) == Some(l.entering[id])
  }

  ghost predicate ResultsAreHistory(events: seq<Event>, l: Life) {
    && (forall id :: id in l.sched.completed ==>
          l.sched.completed[id] == TaskResult(id, true, ReportedAt(events, id, true)))
    && forall id :: id in l.sched.failed ==>
         l.sched.failed[id] == TaskResult(id, false, ReportedAt(events, id, false))
  }

  /** An id that was never pushed was never put back. */
  ghost predicate FreshIds(events: seq<Event>, l: Life) {
    forall id :: id !in l.phase || l.phase[id].Entering? ==> Requeues(events, id) == 0
  }

  // ----- Steps --------------------------------------------------------------------------------------

  /** The event submits, pushes or puts back the id. */
  predicate Touches(e: Event, id: Id) {
    (e.CheckCapacity? && e.request.id == id) || (e.PushTask? && e.id == id) || (e.Requeue? && e.id == id)
  }

  lemma Untouched(events: seq<Event>, e: Event, t: ScheduledTask)
    requires !Touches(e, t.id) && IsHistory(events, t)
    ensures IsHistory(events + [e], t)
  {
    assert (events + [e])[..|events|] == events;
  }

  /** Only an id that is entering, in the hands of a retry, or unknown is touched. */
  lemma TouchedOnlyInHands(l: Life, e: Event, id: Id)
    requires Agrees(l) && Enabled(l, e) && id in l.phase && !l.phase[id].Entering? && !l.phase[id].Between?
    ensures !Touches(e, id)
  {
    assert FitsLedger(l, id);
  }

  lemma PushedFrom(s: seq<ScheduledTask>, x: ScheduledTask, t: ScheduledTask)
    requires t in Push(AtMost, s, x)
    ensures t in s || t == x
  {
    assert t in multiset(Push(AtMost, s, x));
  }

  lemma PoppedFrom(s: seq<ScheduledTask>, t: ScheduledTask)
    ensures t in Pop(AtMost, s).1 ==> t in s
    ensures Pop(AtMost, s).0 == Some(t) ==> t in s
  {
    assert t in Pop(AtMost, s).1 ==> t in multiset(Pop(AtMost, s).1);
  }

  lemma UncancelledFrom(s: Sched, id: Id, t: ScheduledTask)
    ensures t in NotQueued(s, id).queue ==> t in s.queue
    ensures t in NotProcessing(s, id).processing ==> t in s.processing
  {
    assert t in NotQueued(s, id).queue ==> t in multiset(NotQueued(s, id).queue);
    assert t in NotProcessing(s, id).processing ==> t in multiset(NotProcessing(s, id).processing);
  }

  lemma TakenFrom(s: Sched, id: Id, t: ScheduledTask)
    ensures t in TakenBack(s, id).1.processing ==> t in s.processing
    ensures TakenBack(s, id).0 == Some(t) ==> t in s.processing && t.id == id
  {
    TakenAt(s, id);
  }

  /** Where the tasks of the queue come from. */
  lemma QueueFrom(maxQueueSize: nat, l: Life, e: Event, t: ScheduledTask)
    requires Enabled(l, e) && t in Step(maxQueueSize, l, e).sched.queue
    ensures t in l.sched.queue
            || (e.PushTask? && t == NewTask(l.entering[e.id], e.at))
            || (e.Requeue? && t == Rescheduled(Again(l.hands[e.id]), e.at))
  {
    hide Push, Pop, NotQueued, Step, Again, Rescheduled, NewTask;
    TaskGuarantees.QueueAfter(maxQueueSize, l, e);
    match e
    case PushTask(id, at) => PushedFrom(l.sched.queue, NewTask(l.entering[id], at), t);
    case Requeue(id, at) => PushedFrom(l.sched.queue, Rescheduled(Again(l.hands[id]), at), t);
    case PopNext => PoppedFrom(l.sched.queue, t);
    case CancelQueued(_, id) => UncancelledFrom(l.sched, id, t);
    case _ =>
  }

  /** What a section does to the tasks in processing. */
  lemma ProcessingAfter(maxQueueSize: nat, l: Life, e: Event)
    requires Enabled(l, e)
    ensures Step(maxQueueSize, l, e).sched.processing ==
            match e
            case Start(id) => l.sched.processing + [l.hands[id]]
            case LeaveProcessing(id) => NotProcessing(l.sched, id).processing
            case TakeBack(id) => TakenBack(l.sched, id).1.processing
            case CancelProcessing(actor) => NotProcessing(l.sched, l.cancels[actor].id).processing
            case _ => l.sched.processing
  {
    hide Push, Pop, Retain, WithoutId, TakenBack;
  }

  lemma ProcessingFrom(maxQueueSize: nat, l: Life, e: Event, t: ScheduledTask)
    requires Enabled(l, e) && t in Step(maxQueueSize, l, e).sched.processing
    ensures t in l.sched.processing || (e.Start? && t == l.hands[e.id])
  {
    hide TakenBack, NotProcessing, Step;
    ProcessingAfter(maxQueueSize, l, e);
    match e
    case LeaveProcessing(id) => UncancelledFrom(l.sched, id, t);
    case CancelProcessing(actor) => UncancelledFrom(l.sched, l.cancels[actor].id, t);
    case TakeBack(id) => TakenFrom(l.sched, id, t);
    case _ =>
  }

  lemma HandsFrom(maxQueueSize: nat, l: Life, e: Event, id: Id)
    requires Enabled(l, e) && id in Step(maxQueueSize, l, e).hands
    ensures var t := Step(maxQueueSize, l, e).hands[id];
            || (id in l.hands && t == l.hands[id] && !(e.Requeue? && e.id == id))
            || (e.PopNext? && t.id == id && t in l.sched.queue)
            || (e.TakeBack? && t.id == id && t in l.sched.processing)
  {
    hide Push, Pop, Retain, WithoutId, TakenBack;
    var t := Step(maxQueueSize, l, e).hands[id];
    match e
    case PopNext => PoppedFrom(l.sched.queue, t);
    case TakeBack(i) => TakenFrom(l.sched, i, t);
    case _ =>
  }

  // ----- The invariant ------------------------------------------------------------------------------

  lemma PushIsHistory(events: seq<Event>, l: Life, id: Id, at: int)
    requires Agrees(l) && TasksAreHistory(events, l) && FreshIds(events, l) && id in l.entering
    ensures IsHistory(events + [PushTask(id, at)], NewTask(l.entering[id], at))
  {
    assert FitsLedger(l, id);
    assert (events + [PushTask(id, at)])[..|events|] == events;
  }

  /** What a return to the queue adds to the past of its id. */
  lemma PastOfRequeued(events: seq<Event>, id: Id, at: int)
    ensures var longer := events + [Requeue(id, at)];
            && Submitted(longer, id) == Submitted(events, id) && PushedAt(longer, id) == PushedAt(events, id)
            && Requeues(longer, id) == Requeues(events, id) + 1
            && DueAt(longer, id) == at + 5 * (Requeues(events, id) + 1)
  {
    assert (events + [Requeue(id, at)])[..|events|] == events;
  }

  lemma RequeueIsHistory(events: seq<Event>, l: Life, id: Id, at: int)
    requires Agrees(l) && TasksAreHistory(events, l) && id in l.hands
    ensures IsHistory(events + [Requeue(id, at)], Rescheduled(Again(l.hands[id]), at))
  {
    hide Submitted, PushedAt, Requeues, DueAt, Holds, CancelsFit;
    assert FitsLedger(l, id);
    PastOfRequeued(events, id, at);
  }

  /** A task of one of the lists stays what it was. */
  lemma ListedUntouched(l: Life, e: Event, t: ScheduledTask)
    requires Agrees(l) && Enabled(l, e) && (t in l.sched.queue || t in l.sched.processing)
    ensures !Touches(e, t.id)
  {
    assert t in l.sched.queue ==> t in multiset(l.sched.queue) && TaskFits(Queue, l.phase, t);
    assert t in l.sched.processing ==> t in multiset(l.sched.processing) && TaskFits(List.Processing, l.phase, t);
    TouchedOnlyInHands(l, e, t.id);
  }

  lemma HandUntouched(l: Life, e: Event, id: Id)
    requires Agrees(l) && Enabled(l, e) && id in l.hands && !(e.Requeue? && e.id == id)
    ensures !Touches(e, id) && l.hands[id].id == id
  {
    assert FitsLedger(l, id);
  }

  lemma QueueStep(maxQueueSize: nat, events: seq<Event>, l: Life, e: Event, t: ScheduledTask)
    requires Agrees(l) && TasksAreHistory(events, l) && FreshIds(events, l) && Enabled(l, e)
    requires t in Step(maxQueueSize, l, e).sched.queue
    ensures IsHistory(events + [e], t)
  {
    QueueFrom(maxQueueSize, l, e, t);
    hide Agrees, Step, FreshIds, IsHistory, Touches, NewTask, Again, Rescheduled;
    if t in l.sched.queue {
      ListedUntouched(l, e, t);
      Untouched(events, e, t);
    } else if e.PushTask? {
      PushIsHistory(events, l, e.id, e.at);
    } else {
      RequeueIsHistory(events, l, e.id, e.at);
    }
  }

  lemma ProcessingStep(maxQueueSize: nat, events: seq<Event>, l: Life, e: Event, t: ScheduledTask)
    requires Agrees(l) && TasksAreHistory(events, l) && Enabled(l, e)
    requires t in Step(maxQueueSize, l, e).sched.processing
    ensures IsHistory(events + [e], t)
  {
    ProcessingFrom(maxQueueSize, l, e, t);
    hide Agrees, Step, IsHistory;
    if t in l.sched.processing {
      ListedUntouched(l, e, t);
    }
    Untouched(events, e, t);
  }

  lemma HandsStep(maxQueueSize: nat, events: seq<Event>, l: Life, e: Event, id: Id)
    requires Agrees(l) && TasksAreHistory(events, l) && Enabled(l, e)
    requires id in Step(maxQueueSize, l, e).hands
    ensures IsHistory(events + [e], Step(maxQueueSize, l, e).hands[id])
  {
    HandsFrom(maxQueueSize, l, e, id);
    hide Agrees, Step, IsHistory, Touches;
    var t := Step(maxQueueSize, l, e).hands[id];
    if id in l.hands && t == l.hands[id] && !(e.Requeue? && e.id == id) {
      HandUntouched(l, e, id);
    } else {
      ListedUntouched(l, e, t);
    }
    Untouched(events, e, t);
  }

  /** What a section does to the requests about to be pushed, and that no new id is as good as fresh. */
  lemma EnteringAfter(maxQueueSize: nat, l: Life, e: Event, id: Id)
    requires Enabled(l, e)
    ensures var l' := Step(maxQueueSize, l, e);
            && (id in l'.entering ==>
                  (id in l.entering && l'.entering[id] == l.entering[id]) || e == CheckCapacity(l'.entering[id]))
            && (id !in l'.phase ==> id !in l.phase)
  {
    hide Push, Pop, Retain, WithoutId, TakenBack;
  }

  lemma EnteringStep(maxQueueSize: nat, events: seq<Event>, l: Life, e: Event, id: Id)
    requires Agrees(l) && TasksAreHistory(events, l) && Enabled(l, e)
    requires id in Step(maxQueueSize, l, e).entering
    ensures Submitted(events + [e], id) == Some(Step(maxQueueSize, l, e).entering[id])
  {
    hide Step, Holds, CancelsFit, IsHistory;
    EnteringAfter(maxQueueSize, l, e, id);
    assert FitsLedger(l, id);
    assert Agrees(Step(maxQueueSize, l, e)) && FitsLedger(Step(maxQueueSize, l, e), id) by {
      StepAgrees(maxQueueSize, l, e);
    }
    assert (events + [e])[..|events|] == events;
  }

  lemma FreshStep(maxQueueSize: nat, events: seq<Event>, l: Life, e: Event)
    requires Agrees(l) && FreshIds(events, l) && Enabled(l, e)
    ensures FreshIds(events + [e], Step(maxQueueSize, l, e))
  {
    hide Step, Holds, CancelsFit;
    var l' := Step(maxQueueSize, l, e);
    StepAgrees(maxQueueSize, l, e);
    forall id | id !in l'.phase || l'.phase[id].Entering?
      ensures Requeues(events + [e], id) == 0
    {
      EnteringAfter(maxQueueSize, l, e, id);
      assert FitsLedger(l, id) && FitsLedger(l', id);
      assert (events + [e])[..|events|] == events;
    }
  }

  /** A result is the one that this event reports, or an older one that this event does not replace. */
  ghost predicate ResultFrom(before: map<Id, TaskResult>, after: map<Id, TaskResult>, e: Event, id: Id, success: bool) {
    id in after ==>
      if e.InsertResult? && e.id == id && e.success == success then after[id] == TaskResult(id, success, e.at)
      else id in before && after[id] == before[id]
  }

  lemma KeptFrom(before: map<Id, TaskResult>, after: map<Id, TaskResult>, e: Event, id: Id, success: bool)
    requires !e.InsertResult? && (after == before || exists cutoff :: after == Since(before, cutoff))
    ensures ResultFrom(before, after, e, id, success)
  {
  }

  lemma InsertedFrom(l: Life, i: Id, ok: bool, at: int, id: Id)
    requires i in l.phase
    ensures var e, s, s' := InsertResult(i, ok, at), l.sched, AfterInsert(l, i, ok, at).sched;
            ResultFrom(s.completed, s'.completed, e, id, true) && ResultFrom(s.failed, s'.failed, e, id, false)
  {
  }

  /** What a section does to the results. */
  lemma ResultsAfter(maxQueueSize: nat, l: Life, e: Event, id: Id)
    requires Enabled(l, e)
    ensures var s, s' := l.sched, Step(maxQueueSize, l, e).sched;
            && ResultFrom(s.completed, s'.completed, e, id, true)
            && ResultFrom(s.failed, s'.failed, e, id, false)
  {
    hide ResultFrom;
    if e.InsertResult? {
      InsertedFrom(l, e.id, e.success, e.at, id);
      assert Step(maxQueueSize, l, e) == AfterInsert(l, e.id, e.success, e.at);
    } else {
      var s, s' := l.sched, Step(maxQueueSize, l, e).sched;
      ResultsKept(maxQueueSize, l, e);
      KeptFrom(s.completed, s'.completed, e, id, true);
      KeptFrom(s.failed, s'.failed, e, id, false);
    }
  }

  lemma ResultsKept(maxQueueSize: nat, l: Life, e: Event)
    requires Enabled(l, e) && !e.InsertResult?
    ensures var s, s' := l.sched, Step(maxQueueSize, l, e).sched;
            && (s'.completed == s.completed || exists cutoff :: s'.completed == Since(s.completed, cutoff))
            && (s'.failed == s.failed || exists cutoff :: s'.failed == Since(s.failed, cutoff))
  {
    hide Queued, Popped, Started, NotQueued, NotProcessing, TakenBack, HasTask, Since;
    OnlyReportsChangeResults(l.sched);
    match e
    case ClearCompleted(cutoff) => assert Step(maxQueueSize, l, e).sched.completed == Since(l.sched.completed, cutoff);
    case ClearFailed(cutoff) => assert Step(maxQueueSize, l, e).sched.failed == Since(l.sched.failed, cutoff);
    case _ =>
  }

  lemma ResultsStep(maxQueueSize: nat, events: seq<Event>, l: Life, e: Event)
    requires ResultsAreHistory(events, l) && Enabled(l, e)
    ensures ResultsAreHistory(events + [e], Step(maxQueueSize, l, e))
  {
    hide Step, Enabled;
    var s' := Step(maxQueueSize, l, e).sched;
    assert (events + [e])[..|events|] == events;
    forall id | id in s'.completed
      ensures s'.completed[id] == TaskResult(id, true, ReportedAt(events + [e], id, true))
    {
      ResultsAfter(maxQueueSize, l, e, id);
    }
    forall id | id in s'.failed
      ensures s'.failed[id] == TaskResult(id, false, ReportedAt(events + [e], id, false))
    {
      ResultsAfter(maxQueueSize, l, e, id);
    }
  }

  lemma TasksStep(maxQueueSize: nat, events: seq<Event>, l: Life, e: Event)
    requires Agrees(l) && TasksAreHistory(events, l) && FreshIds(events, l) && Enabled(l, e)
    ensures TasksAreHistory(events + [e], Step(maxQueueSize, l, e))
  {
    hide Agrees, Step, IsHistory, FreshIds, Enabled;
    var l' := Step(maxQueueSize, l, e);
    forall t | t in l'.sched.queue
      ensures IsHistory(events + [e], t)
    {
      QueueStep(maxQueueSize, events, l, e, t);
    }
    forall t | t in l'.sched.processing
      ensures IsHistory(events + [e], t)
    {
      ProcessingStep(maxQueueSize, events, l, e, t);
    }
    forall id | id in l'.hands
      ensures IsHistory(events + [e], l'.hands[id])
    {
      HandsStep(maxQueueSize, events, l, e, id);
    }
    forall id | id in l'.entering
      ensures Submitted(events + [e], id) == Some(l'.entering[id])
    {
      EnteringStep(maxQueueSize, events, l, e, id);
    }
  }

  /** In every reachable state the tasks and results are the past of their ids. */
  lemma {:induction false} RunIsHistory(maxQueueSize: nat, events: seq<Event>)
    requires Reach(maxQueueSize, events).Some?
    ensures TasksAreHistory(events, Reach(maxQueueSize, events).value)
    ensures FreshIds(events, Reach(maxQueueSize, events).value)
    ensures ResultsAreHistory(events, Reach(maxQueueSize, events).value)
  {
    if events != [] {
      hide Agrees, Step, Enabled, TasksAreHistory, FreshIds, ResultsAreHistory;
      var n := |events| - 1;
      var l, e := Reach(maxQueueSize, events[..n]).value, events[n];
      RunIsHistory(maxQueueSize, events[..n]);
      RunAgrees(maxQueueSize, events[..n]);
      TasksStep(maxQueueSize, events[..n], l, e);
      FreshStep(maxQueueSize, events[..n], l, e);
      ResultsStep(maxQueueSize, events[..n], l, e);
      assert events[..n] + [e] == events;
    }
  }

  // ----- What is handed out, and what is kept -------------------------------------------------------

  /** Over every run of the scheduler the task handed out next is one whose request has the lowest priority
      of all that wait, and among those the one that is due last. */
  lemma LowestAndLatestNext(maxQueueSize: nat, events: seq<Event>, top: ScheduledTask, t: ScheduledTask)
    requires Reach(maxQueueSize, events).Some?
    requires Popped(Reach(maxQueueSize, events).value.sched).0 == Some(top)
    requires t in Reach(maxQueueSize, events).value.sched.queue
    ensures Submitted(events, top.id).Some? && Submitted(events, t.id).Some?
    ensures var p, q := Submitted(events, top.id).value.priority, Submitted(events, t.id).value.priority;
            p.Below(q) || (p == q && DueAt(events, top.id) >= DueAt(events, t.id))
  {
    RunIsHistory(maxQueueSize, events);
    TaskGuarantees.NextTaskIsLeastUrgent(maxQueueSize, events);
    assert IsHistory(events, top) && IsHistory(events, t);
    assert NoMoreUrgent(top, t);
  }

  /** Clearing with a cutoff keeps exactly the results reported after it. */
  lemma ClearingKeepsTheRecent(maxQueueSize: nat, events: seq<Event>, id: Id, cutoff: int)
    requires Reach(maxQueueSize, events).Some?
    ensures var s := Reach(maxQueueSize, events).value.sched;
            && (id in ClearedTasks(s, cutoff).completed <==>
                id in s.completed && ReportedAt(events, id, true) > cutoff)
            && (id in ClearedTasks(s, cutoff).failed <==>
                id in s.failed && ReportedAt(events, id, false) > cutoff)
  {
    RunIsHistory(maxQueueSize, events);
  }
}
