/** Status reads and cancellations whose sections other callers get in between: when their answers are sure. */
module SlowCallers {
  import opened Wrappers
  import opened BinaryHeap
  import opened Scheduler
  import opened TaskLifecycle
  import opened TaskGuarantees

  // ----- Status reads -------------------------------------------------------------------------------

  /** What `get_task_status` returns when its four sections see four successive states. */
  function StatusRead(a: Life, b: Life, c: Life, d: Life, id: Id): TaskStatus {
    if HasTask(a.sched.queue, id) then TaskStatus.Pending
    else if HasTask(b.sched.processing, id) then TaskStatus.Processing
    else if id in c.sched.completed then TaskStatus.Completed
    else if id in d.sched.failed then TaskStatus.Failed
    else NotFound
  }

  /** Whatever happens between the sections, an answer is true of the moment its section was entered. */
  lemma StatusReadIsTrueThen(a: Life, b: Life, c: Life, d: Life, id: Id)
    requires Agrees(a) && Agrees(b) && Agrees(c) && Agrees(d)
    ensures match StatusRead(a, b, c, d, id)
            case Pending => id in a.phase && a.phase[id].Waiting?
            case Processing => id in b.phase && (b.phase[id].Running? || (b.phase[id].Reported? && b.phase[id].listed))
            case Completed => id in c.phase && c.phase[id].Reported? && c.phase[id].standing.Succeeded?
            case Failed => id in d.phase && d.phase[id].Reported? && d.phase[id].standing.GaveUp?
            case NotFound => Visible(a, id) != TaskStatus.Pending && Visible(b, id) != TaskStatus.Processing
                             && Visible(c, id) != TaskStatus.Completed && Visible(d, id) != TaskStatus.Failed
    ensures StatusRead(a, a, a, a, id) == Visible(a, id)
  {
    PlacedIfAgrees(a, id);
    PlacedIfAgrees(b, id);
    PlacedIfAgrees(c, id);
    PlacedIfAgrees(d, id);
    hide Agrees, HasTask, FitsLedger;
  }

  /** No cancellation and no clearing. */
  predicate Spares(e: Event) {
    !e.CancelQueued? && !e.CancelProcessing? && !e.ClearCompleted? && !e.ClearFailed?
  }

  ghost predicate Sparing(events: seq<Event>) {
    forall e :: e in events ==> Spares(e)
  }

  /** What a status read returns that begins in a state and sees these events between its sections. */
  function ReadAlong(maxQueueSize: nat, l: Life, e1: seq<Event>, e2: seq<Event>, e3: seq<Event>, id: Id): TaskStatus {
    var b := Then(maxQueueSize, l, e1);
    var c := Then(maxQueueSize, b, e2);
    StatusRead(l, b, c, Then(maxQueueSize, c, e3), id)
  }

  /** Whatever submitters and workers do between its sections, a read that begins now finds the id. */
  ghost predicate ReadIsSure(maxQueueSize: nat, l: Life, id: Id) {
    forall e1, e2, e3 :: Sparing(e1) && Sparing(e2) && Sparing(e3) ==>
      ReadAlong(maxQueueSize, l, e1, e2, e3, id) != NotFound
  }

  predicate HasResult(phase: Phase) {
    phase.Reported? && !phase.standing.Cleared?
  }

  lemma StepKeepsCancels(maxQueueSize: nat, l: Life, e: Event)
    requires Enabled(l, e) && Spares(e)
    ensures Step(maxQueueSize, l, e).cancels == l.cancels
  {
    hide Pop, Push, WithoutId, TakenBack;
  }

  lemma StepKeepsResult(maxQueueSize: nat, l: Life, e: Event, id: Id)
    requires Agrees(l) && Enabled(l, e) && Spares(e) && id in l.phase && HasResult(l.phase[id])
    ensures var l' := Step(maxQueueSize, l, e);
            id in l'.phase && l'.phase[id].Reported? && l'.phase[id].standing == l.phase[id].standing
  {
    if !Works(l, e) {
      hide Agrees, Pop;
    } else if id != Worked(l, e) {
      hide Agrees, Enabled, Step, Works, Worked;
      WorkLeavesOthers(maxQueueSize, l, e, id);
    } else {
      OnlyLeaves(l, e, id);
      hide Agrees, WithoutId;
    }
  }

  /** The one section that is left to the worker of an id with a result. */
  lemma OnlyLeaves(l: Life, e: Event, id: Id)
    requires Agrees(l) && Enabled(l, e) && id in l.phase && l.phase[id].Reported?
    requires Works(l, e) && id == Worked(l, e)
    ensures e == LeaveProcessing(id)
  {
    hide Holds, CancelsFit, Pop;
    assert FitsLedger(l, id);
    if e.PopNext? {
      TopFits(l);
    }
  }

  /** Without cancellations and clearing, what is half-done stays so and a result stands. */
  lemma {:induction false} ThenSpares(maxQueueSize: nat, l: Life, events: seq<Event>, id: Id)
    requires Agrees(l) && Sparing(events)
    ensures Agrees(Then(maxQueueSize, l, events)) && Then(maxQueueSize, l, events).cancels == l.cancels
    ensures id in l.phase && HasResult(l.phase[id]) ==>
              var l' := Then(maxQueueSize, l, events);
              id in l'.phase && l'.phase[id].Reported? && l'.phase[id].standing == l.phase[id].standing
    decreases |events|
  {
    hide Agrees, Step, Enabled;
    if events != [] && Enabled(l, events[0]) {
      assert events[0] in events;
      StepAgrees(maxQueueSize, l, events[0]);
      StepKeepsCancels(maxQueueSize, l, events[0]);
      if id in l.phase && HasResult(l.phase[id]) {
        StepKeepsResult(maxQueueSize, l, events[0], id);
      }
      ThenSpares(maxQueueSize, Step(maxQueueSize, l, events[0]), events[1..], id);
    }
  }

  lemma ThenOne(maxQueueSize: nat, l: Life, e: Event)
    requires Enabled(l, e)
    ensures Then(maxQueueSize, l, [e]) == Step(maxQueueSize, l, e)
  {
    assert [e][1..] == [];
  }

  lemma SureIfFound(maxQueueSize: nat, l: Life, e1: seq<Event>, e2: seq<Event>, e3: seq<Event>, id: Id)
    requires Agrees(l) && id in l.phase && (l.phase[id].Waiting? || HasResult(l.phase[id]))
    requires Sparing(e1) && Sparing(e2) && Sparing(e3)
    ensures ReadAlong(maxQueueSize, l, e1, e2, e3, id) != NotFound
  {
    hide Agrees, Then, HasTask, FitsLedger;
    var b := Then(maxQueueSize, l, e1);
    var c := Then(maxQueueSize, b, e2);
    ThenSpares(maxQueueSize, l, e1, id);
    ThenSpares(maxQueueSize, b, e2, id);
    ThenSpares(maxQueueSize, c, e3, id);
    PlacedIfAgrees(l, id);
    PlacedIfAgrees(b, id);
    PlacedIfAgrees(c, id);
    PlacedIfAgrees(Then(maxQueueSize, c, e3), id);
  }

  /** The section of a worker that takes an id out of processing without a result. */
  function Slip(phase: Phase, id: Id): seq<Event> {
    if phase.Running? then [TakeBack(id)]
    else if phase.Reported? && phase.leaving then [LeaveProcessing(id)]
    else []
  }

  lemma Slips(maxQueueSize: nat, l: Life, id: Id)
    requires Agrees(l) && id in l.phase
    ensures Sparing(Slip(l.phase[id], id))
    ensures var l' := Then(maxQueueSize, l, Slip(l.phase[id], id));
            && Agrees(l') && !HasTask(l'.sched.processing, id)
            && l'.cancels == l.cancels
            && (id in l'.phase && (HasResult(l'.phase[id]) <==> HasResult(l.phase[id])))
  {
    hide Holds, HasTask, TakenBack, WithoutId, CancelsFit, Without;
    assert FitsLedger(l, id);
    var events := Slip(l.phase[id], id);
    ThenSpares(maxQueueSize, l, events, id);
    if l.phase[id].Running? {
      ThenOne(maxQueueSize, l, TakeBack(id));
      TakenIfRunning(l, id);
    } else if events != [] {
      ThenOne(maxQueueSize, l, LeaveProcessing(id));
    }
    PlacedIfAgrees(Then(maxQueueSize, l, events), id);
  }

  lemma MissedIfNotSure(maxQueueSize: nat, l: Life, id: Id)
    requires Agrees(l) && id in l.phase && !l.phase[id].Waiting? && !HasResult(l.phase[id])
    ensures Sparing([])
    ensures ReadAlong(maxQueueSize, l, Slip(l.phase[id], id), [], [], id) == NotFound
  {
    hide Agrees, HasTask, Slip;
    var l' := Then(maxQueueSize, l, Slip(l.phase[id], id));
    Slips(maxQueueSize, l, id);
    PlacedIfAgrees(l, id);
    PlacedIfAgrees(l', id);
    assert Then(maxQueueSize, l', []) == l';
  }

  /** A status read that begins now is sure to find an id exactly when it waits or has a result; in every other
      phase one section of its worker at most makes the read miss it. */
  lemma ReadIsSureIffWaitingOrDone(maxQueueSize: nat, l: Life, id: Id)
    requires Agrees(l) && id in l.phase
    ensures ReadIsSure(maxQueueSize, l, id) <==> l.phase[id].Waiting? || HasResult(l.phase[id])
  {
    hide Agrees, ReadAlong, HasResult, Slip;
    if l.phase[id].Waiting? || HasResult(l.phase[id]) {
      forall e1, e2, e3 | Sparing(e1) && Sparing(e2) && Sparing(e3)
        ensures ReadAlong(maxQueueSize, l, e1, e2, e3, id) != NotFound
      {
        SureIfFound(maxQueueSize, l, e1, e2, e3, id);
      }
    } else {
      MissedIfNotSure(maxQueueSize, l, id);
      Slips(maxQueueSize, l, id);
    }
  }

  // ----- Cancellations ------------------------------------------------------------------------------

  /** The answer a cancellation gives whose second section comes after these events. */
  predicate AnswerAfter(maxQueueSize: nat, l: Life, actor: Actor, events: seq<Event>) {
    var l' := Then(maxQueueSize, l, events);
    actor in l'.cancels && Answer(l', actor)
  }

  /** Whatever submitters and workers do between its sections, a cancellation that begins now answers true. */
  ghost predicate CancellationIsSure(maxQueueSize: nat, l: Life, actor: Actor, id: Id) {
    forall events :: Sparing(events) ==> AnswerAfter(maxQueueSize, AfterCancelQueued(l, actor, id), actor, events)
  }

  /** A cancellation that begins now is sure to find an id exactly when it waits. */
  lemma CancellationIsSureIffWaiting(maxQueueSize: nat, l: Life, actor: Actor, id: Id)
    requires Agrees(l) && actor !in l.cancels
    ensures CancellationIsSure(maxQueueSize, l, actor, id) <==> id in l.phase && l.phase[id].Waiting?
  {
    hide Agrees, Then, HasTask, NotQueued, FitsLedger, Slip;
    var half := AfterCancelQueued(l, actor, id);
    CancelQueuedAgrees(l, actor, id);
    PlacedIfAgrees(l, id);
    if id in l.phase && l.phase[id].Waiting? {
      forall events | Sparing(events)
        ensures AnswerAfter(maxQueueSize, half, actor, events)
      {
        ThenSpares(maxQueueSize, half, events, id);
      }
    } else {
      CancellationMisses(maxQueueSize, half, actor, id);
    }
  }

  lemma CancellationMisses(maxQueueSize: nat, half: Life, actor: Actor, id: Id)
    requires Agrees(half) && actor in half.cancels && half.cancels[actor] == HalfCancel(id, false)
    ensures exists events :: Sparing(events) && !AnswerAfter(maxQueueSize, half, actor, events)
  {
    hide Agrees, HasTask, FitsLedger, Slip;
    if id in half.phase {
      Slips(maxQueueSize, half, id);
      assert !AnswerAfter(maxQueueSize, half, actor, Slip(half.phase[id], id));
    } else {
      PlacedIfAgrees(half, id);
      assert Sparing([]) && !AnswerAfter(maxQueueSize, half, actor, []);
    }
  }

  // ----- Around a retry -----------------------------------------------------------------------------

  /** The state when a retry has taken a running task back and put it into the queue again. */
  function Retried(l: Life, id: Id, at: int): Life
    requires id in AfterTakeBack(l, id).hands
  {
    AfterRequeue(AfterTakeBack(l, id), id, at)
  }

  lemma RetryRequeues(l: Life, id: Id, at: int)
    requires Agrees(l) && id in l.phase && l.phase[id].Running? && l.phase[id].retries < MAX_RETRIES
    ensures Enabled(l, TakeBack(id)) && Enabled(AfterTakeBack(l, id), Requeue(id, at))
    ensures Agrees(Retried(l, id, at)) && At(Retried(l, id, at), id, Waiting(l.phase[id].retries + 1))
    ensures Retried(l, id, at).cancels == l.cancels
  {
    hide Agrees, TakenBack, Without, Queued;
    TakenIfRunning(l, id);
    TakeBackAgrees(l, id);
    RequeueAgrees(AfterTakeBack(l, id), id, at);
  }

  /** A status read that begins while a task runs and ends after its retry misses it, although it was never
      cancelled, reported or done. */
  lemma SlowReadMissesARetry(l: Life, id: Id, at: int)
    requires Agrees(l) && id in l.phase && l.phase[id].Running? && l.phase[id].retries < MAX_RETRIES
    ensures id in AfterTakeBack(l, id).hands
    ensures var l' := Retried(l, id, at);
            StatusRead(l, l', l', l', id) == NotFound && Visible(l', id) == TaskStatus.Pending
  {
    hide Agrees, HasTask, Retried, StatusOf, TakenBack, FitsLedger;
    RetryRequeues(l, id, at);
    PlacedIfAgrees(l, id);
    PlacedIfAgrees(Retried(l, id, at), id);
  }

  /** So does a cancellation, whose answer is then false. */
  lemma SlowCancellationMissesARetry(l: Life, id: Id, actor: Actor, at: int)
    requires Agrees(l) && id in l.phase && l.phase[id].Running? && l.phase[id].retries < MAX_RETRIES
    requires actor !in l.cancels
    ensures var half := AfterCancelQueued(l, actor, id);
            && id in AfterTakeBack(half, id).hands
            && var l' := Retried(half, id, at);
               && actor in l'.cancels && !l'.cancels[actor].found && !HasTask(l'.sched.processing, id)
               && Visible(AfterCancelProcessing(l', actor), id) == TaskStatus.Pending
  {
    hide Agrees, HasTask, Retried, StatusOf, TakenBack, NotQueued, FitsLedger;
    PlacedIfAgrees(l, id);
    var half := AfterCancelQueued(l, actor, id);
    CancelQueuedAgrees(l, actor, id);
    RetryRequeues(half, id, at);
    PlacedIfAgrees(Retried(half, id, at), id);
  }
}
