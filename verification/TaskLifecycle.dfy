/** Runs of the scheduler under its intended protocol: pop a task, start processing it, then complete or
    retry it, with submitting, cancelling and clearing at any time.  Every operation is split into the
    sections that hold a lock, and those of different callers interleave in any order.  Every id is followed
    through its life by a ledger, and the scheduler's queues and maps are proved to agree with it. */
module TaskLifecycle {
  import opened Wrappers
  import opened BinaryHeap
  import opened Scheduler

  type Actor = nat

  /** What became of the result of a reported id. */
  datatype Standing = Succeeded | GaveUp | Cleared

  /** Where an id stands.  The number is how often its task has been retried.

      A submitted id is first `Entering`: checked against the capacity, not yet pushed.  `Between` is a task
      that a retry has taken out of processing and not yet put back or given up.  A cancelled id is `busy`
      when it was cancelled under the hands of a worker, who has yet to complete or retry it.  A reported id
      is still `listed` in processing until its worker's last section, which makes it no longer `leaving`,
      or until a cancellation. */
  datatype Phase =
    | Entering
    | Waiting(retries: nat)
    | HandedOut(retries: nat)
    | Running(retries: nat)
    | Between(retries: nat)
    | Dropped(busy: bool)
    | Reported(standing: Standing, listed: bool, leaving: bool)

  /** A cancellation between its two sections, and whether the first one found the id. */
  datatype HalfCancel = HalfCancel(id: Id, found: bool)

  datatype Life = Life(sched: Sched, entering: map<Id, Request>, hands: map<Id, ScheduledTask>,
                       cancels: map<Actor, HalfCancel>, phase: map<Id, Phase>, pops: map<Id, nat>)

  datatype Event =
    | CheckCapacity(request: Request)
    | PushTask(id: Id, at: int)
    | PopNext
    | Start(id: Id)
    | InsertResult(id: Id, success: bool, at: int)
    | LeaveProcessing(id: Id)
    | TakeBack(id: Id)
    | Requeue(id: Id, at: int)
    | CancelQueued(actor: Actor, id: Id)
    | CancelProcessing(actor: Actor)
    | ClearCompleted(cutoff: int)
    | ClearFailed(cutoff: int)

  const INIT := Life(Sched([], [], map[], map[]), map[], map[], map[], map[], map[])

  predicate At(l: Life, id: Id, phase: Phase) {
    id in l.phase && l.phase[id] == phase
  }

  /** A worker is at work on the id. */
  predicate Busy(l: Life, id: Id) {
    id in l.phase && (l.phase[id].Running? || l.phase[id] == Dropped(true))
  }

  /** A retry has the task in its hands. */
  predicate Retrying(l: Life, id: Id) {
    id in l.phase && l.phase[id].Between? && id in l.hands
  }

  /** What the protocol allows: ids are fresh, a task is started by whom it was handed to, only a worker
      completes or retries, once, and the sections of an operation follow one another. */
  predicate Enabled(l: Life, e: Event) {
    match e
    case CheckCapacity(request) => request.id !in l.phase
    case PushTask(id, _) => id in l.entering
    case PopNext => true
    case Start(id) => id in l.phase && l.phase[id].HandedOut? && id in l.hands
    case InsertResult(id, success, _) =>
      Busy(l, id) || (Retrying(l, id) && !success && Again(l.hands[id]).retryCount > l.hands[id].maxRetries)
    case LeaveProcessing(id) => id in l.phase && l.phase[id].Reported? && l.phase[id].leaving
    case TakeBack(id) => Busy(l, id)
    case Requeue(id, _) => Retrying(l, id) && Again(l.hands[id]).retryCount <= l.hands[id].maxRetries
    case CancelQueued(actor, _) => actor !in l.cancels
    case CancelProcessing(actor) => actor in l.cancels
    case ClearCompleted(_) => true
    case ClearFailed(_) => true
  }

  // ----- What the sections do -----------------------------------------------------------------------

  function Moved(l: Life, sched: Sched, id: Id, phase: Phase): Life {
    l.(sched := sched, phase := l.phase[id := phase])
  }

  function AfterCheck(maxQueueSize: nat, l: Life, request: Request): Life {
    if |l.sched.queue| >= maxQueueSize then l
    else l.(entering := l.entering[request.id := request], phase := l.phase[request.id := Entering])
  }

  function AfterPush(l: Life, id: Id, at: int): Life
    requires id in l.entering
  {
    Moved(l, Queued(l.sched, NewTask(l.entering[id], at)), id, Waiting(0)).(entering := l.entering - {id})
  }

  function AfterPop(l: Life): Life {
    var (top, sched) := Popped(l.sched);
    match top
    case None => l
    case Some(task) =>
      Moved(l, sched, task.id, HandedOut(task.retryCount)).(
        hands := l.hands[task.id := task],
        pops := l.pops[task.id := 1 + if task.id in l.pops then l.pops[task.id] else 0])
  }

  function AfterStart(l: Life, id: Id): Life
    requires id in l.hands
  {
    Moved(l, Started(l.sched, l.hands[id]), id, Running(l.hands[id].retryCount)).(hands := l.hands - {id})
  }

  function AfterInsert(l: Life, id: Id, success: bool, at: int): Life
    requires id in l.phase
  {
    Moved(l, WithResult(l.sched, id, success, at), id,
          Reported(if success then Succeeded else GaveUp, l.phase[id].Running?, true)).(hands := l.hands - {id})
  }

  function AfterLeave(l: Life, id: Id): Life
    requires id in l.phase && l.phase[id].Reported?
  {
    Moved(l, NotProcessing(l.sched, id), id, Reported(l.phase[id].standing, false, false))
  }

  function AfterTakeBack(l: Life, id: Id): Life {
    var (found, sched) := TakenBack(l.sched, id);
    match found
    case None => Moved(l, sched, id, Dropped(false))
    case Some(task) => Moved(l, sched, id, Between(task.retryCount)).(hands := l.hands[id := task])
  }

  function AfterRequeue(l: Life, id: Id, at: int): Life
    requires id in l.hands
  {
    var task := Rescheduled(Again(l.hands[id]), at);
    Moved(l, Queued(l.sched, task), id, Waiting(task.retryCount)).(hands := l.hands - {id})
  }

  function AfterCancelQueued(l: Life, actor: Actor, id: Id): Life {
    var next := l.(sched := NotQueued(l.sched, id),
                   cancels := l.cancels[actor := HalfCancel(id, HasTask(l.sched.queue, id))]);
    if id in l.phase && l.phase[id].Waiting? then next.(phase := l.phase[id := Dropped(false)]) else next
  }

  /** What a cancellation's second section makes of an id. */
  function Unlisted(phase: Phase): Phase {
    match phase
    case Running(_) => Dropped(true)
    case Reported(standing, _, leaving) => Reported(standing, false, leaving)
    case _ => phase
  }

  function AfterCancelProcessing(l: Life, actor: Actor): Life
    requires actor in l.cancels
  {
    var id := l.cancels[actor].id;
    l.(sched := NotProcessing(l.sched, id), cancels := l.cancels - {actor},
       phase := if id in l.phase then l.phase[id := Unlisted(l.phase[id])] else l.phase)
  }

  /** The phase of an id of which only the results in `kept` remain. */
  function WithoutResult(phase: Phase, standing: Standing, kept: bool): Phase {
    if phase.Reported? && phase.standing == standing && !kept then phase.(standing := Cleared) else phase
  }

  function AfterClearCompleted(l: Life, cutoff: int): Life {
    var sched := ClearedCompleted(l.sched, cutoff);
    l.(sched := sched, phase := map id | id in l.phase :: WithoutResult(l.phase[id], Succeeded, id in sched.completed))
  }

  function AfterClearFailed(l: Life, cutoff: int): Life {
    var sched := ClearedFailed(l.sched, cutoff);
    l.(sched := sched, phase := map id | id in l.phase :: WithoutResult(l.phase[id], GaveUp, id in sched.failed))
  }

  function Step(maxQueueSize: nat, l: Life, e: Event): Life
    requires Enabled(l, e)
  {
    match e
    case CheckCapacity(request) => AfterCheck(maxQueueSize, l, request)
    case PushTask(id, at) => AfterPush(l, id, at)
    case PopNext => AfterPop(l)
    case Start(id) => AfterStart(l, id)
    case InsertResult(id, success, at) => AfterInsert(l, id, success, at)
    case LeaveProcessing(id) => AfterLeave(l, id)
    case TakeBack(id) => AfterTakeBack(l, id)
    case Requeue(id, at) => AfterRequeue(l, id, at)
    case CancelQueued(actor, id) => AfterCancelQueued(l, actor, id)
    case CancelProcessing(actor) => AfterCancelProcessing(l, actor)
    case ClearCompleted(cutoff) => AfterClearCompleted(l, cutoff)
    case ClearFailed(cutoff) => AfterClearFailed(l, cutoff)
  }

  /** The state after the events, if the protocol allows all of them. */
  function Reach(maxQueueSize: nat, events: seq<Event>): Option<Life> {
    if events == [] then Some(INIT) else
      match Reach(maxQueueSize, events[..|events| - 1])
      case None => None
      case Some(l) =>
        var e := events[|events| - 1];
        if Enabled(l, e) then Some(Step(maxQueueSize, l, e)) else None
  }

  // ----- The ledger ---------------------------------------------------------------------------------

  /** The two lists of tasks the scheduler keeps, and the phases of the ids in them. */
  datatype List = Queue | Processing {
    predicate Is(phase: Phase) {
      if this.Queue? then phase.Waiting? else phase.Running? || (phase.Reported? && phase.listed)
    }

    predicate Fits(phase: Phase, t: ScheduledTask) {
      Is(phase) && (phase.Reported? || phase.retries == t.retryCount)
    }
  }

  predicate InBounds(t: ScheduledTask) {
    t.maxRetries == MAX_RETRIES && t.retryCount <= MAX_RETRIES
  }

  ghost predicate TaskFits(list: List, phase: map<Id, Phase>, t: ScheduledTask) {
    t.id in phase && list.Fits(phase[t.id], t) && InBounds(t)
  }

  ghost predicate Listed(tasks: multiset<ScheduledTask>, id: Id) {
    exists t :: t in tasks && t.id == id
  }

  /** The tasks of a list are those of the ids in its phases, one task each. */
  ghost predicate Holds(list: List, tasks: multiset<ScheduledTask>, phase: map<Id, Phase>) {
    && (forall t :: t in tasks ==> tasks[t] == 1 && TaskFits(list, phase, t))
    && (forall t, u :: t in tasks && u in tasks && t.id == u.id ==> t == u)
    && forall id :: id in phase && list.Is(phase[id]) ==> Listed(tasks, id)
  }

  /** How often a task in this phase has been popped. */
  predicate PopsFit(phase: Phase, pops: nat) {
    match phase
    case Entering => pops == 0
    case Waiting(r) => pops == r <= MAX_RETRIES
    case HandedOut(r) => pops == r + 1 <= MAX_RETRIES + 1
    case Running(r) => pops == r + 1 <= MAX_RETRIES + 1
    case Between(r) => pops == r + 1 <= MAX_RETRIES + 1
    case _ => pops <= MAX_RETRIES + 1
  }

  function PopsOf(l: Life, id: Id): nat {
    if id in l.pops then l.pops[id] else 0
  }

  predicate HandFits(phase: Phase, task: ScheduledTask, id: Id) {
    task.id == id && InBounds(task) && (phase == HandedOut(task.retryCount) || phase == Between(task.retryCount))
  }

  /** The requests about to be pushed, the tasks in hands, the results and the pop counts are what the ledger
      says of the id. */
  ghost predicate FitsLedger(l: Life, id: Id) {
    && (id in l.entering <==> At(l, id, Entering))
    && (id in l.entering ==> l.entering[id].id == id)
    && (id in l.hands <==> id in l.phase && (l.phase[id].HandedOut? || l.phase[id].Between?))
    && (id in l.hands ==> HandFits(l.phase[id], l.hands[id], id))
    && (id in l.sched.completed <==> id in l.phase && l.phase[id].Reported? && l.phase[id].standing.Succeeded?)
    && (id in l.sched.failed <==> id in l.phase && l.phase[id].Reported? && l.phase[id].standing.GaveUp?)
    && (id in l.phase && l.phase[id].Reported? && l.phase[id].listed ==> l.phase[id].leaving)
    && (id in l.pops ==> id in l.phase)
    && (id in l.phase ==> PopsFit(l.phase[id], PopsOf(l, id)))
  }

  /** What the first section of a cancellation found is gone from everybody's hands. */
  ghost predicate CancelsFit(l: Life) {
    forall a :: a in l.cancels && l.cancels[a].found ==> At(l, l.cancels[a].id, Dropped(false))
  }

  ghost predicate Agrees(l: Life) {
    && Holds(Queue, multiset(l.sched.queue), l.phase)
    && Holds(List.Processing, multiset(l.sched.processing), l.phase)
    && CancelsFit(l)
    && forall id :: FitsLedger(l, id)
  }

  /** An event that concerns one id leaves everything else in the ledger, the hands, the results and the
      pop counts as it was. */
  ghost predicate ConcernsOnly(l: Life, l': Life, id: Id) {
    forall i :: i != id ==> SameAt(l, l', i)
  }

  ghost predicate SameAt(l: Life, l': Life, i: Id) {
    && (i in l'.phase <==> i in l.phase) && (i in l.phase ==> l'.phase[i] == l.phase[i])
    && (i in l'.entering <==> i in l.entering) && (i in l.entering ==> l'.entering[i] == l.entering[i])
    && (i in l'.hands <==> i in l.hands) && (i in l.hands ==> l'.hands[i] == l.hands[i])
    && (i in l'.sched.completed <==> i in l.sched.completed) && (i in l'.sched.failed <==> i in l.sched.failed)
    && (i in l'.pops <==> i in l.pops) && PopsOf(l', i) == PopsOf(l, i)
  }

  lemma OneMoves(l: Life, l': Life, id: Id)
    requires Agrees(l) && ConcernsOnly(l, l', id) && FitsLedger(l', id)
    requires Holds(Queue, multiset(l'.sched.queue), l'.phase)
    requires Holds(List.Processing, multiset(l'.sched.processing), l'.phase)
    requires CancelsFit(l')
    ensures Agrees(l')
  {
    hide Holds, CancelsFit, HandFits, PopsFit;
    forall i
      ensures FitsLedger(l', i)
    {
      assert FitsLedger(l, i);
      assert i != id ==> SameAt(l, l', i);
    }
  }

  /** Cancellations do not notice when an id moves that none of them has found. */
  lemma CancelsStill(l: Life, l': Life, id: Id)
    requires CancelsFit(l) && l'.cancels == l.cancels && ConcernsOnly(l, l', id)
    requires id in l.phase ==> l.phase[id] != Dropped(false)
    ensures CancelsFit(l')
  {
    forall a | a in l'.cancels && l'.cancels[a].found
      ensures At(l', l'.cancels[a].id, Dropped(false))
    {
      assert At(l, l.cancels[a].id, Dropped(false));
      assert SameAt(l, l', l.cancels[a].id);
    }
  }

  // ----- How the lists follow the ledger ------------------------------------------------------------

  lemma HoldsAdded(list: List, tasks: multiset<ScheduledTask>, phase: map<Id, Phase>, t: ScheduledTask, to: Phase,
                   tasks': multiset<ScheduledTask>)
    requires Holds(list, tasks, phase) && InBounds(t) && list.Fits(to, t)
    requires t.id in phase ==> !list.Is(phase[t.id])
    requires tasks' == tasks + multiset{t}
    ensures Holds(list, tasks', phase[t.id := to])
  {
    var phase' := phase[t.id := to];
    assert forall u :: u in tasks ==> TaskFits(list, phase, u) && u.id != t.id;
    assert t in tasks' && TaskFits(list, phase', t);
    forall u | u in tasks'
      ensures tasks'[u] == 1 && TaskFits(list, phase', u)
    {
      assert u == t || u in tasks;
    }
    forall id | id in phase' && list.Is(phase'[id])
      ensures Listed(tasks', id)
    {
      if id != t.id {
        assert Listed(tasks, id);
        var u :| u in tasks && u.id == id;
        assert u in tasks';
      }
    }
  }

  /** `rest` are the tasks but those of the id. */
  ghost predicate Without(rest: multiset<ScheduledTask>, tasks: multiset<ScheduledTask>, id: Id) {
    forall u :: rest[u] == if u.id != id then tasks[u] else 0
  }

  /** What remains was there before, and nothing of the id does. */
  lemma WhatRemains(rest: multiset<ScheduledTask>, tasks: multiset<ScheduledTask>, id: Id, u: ScheduledTask)
    requires Without(rest, tasks, id)
    ensures u in rest <==> u in tasks && u.id != id
    ensures u in rest ==> rest[u] == tasks[u]
  {
    assert rest[u] == if u.id != id then tasks[u] else 0;
  }

  lemma StillListed(tasks: multiset<ScheduledTask>, id: Id, rest: multiset<ScheduledTask>, i: Id)
    requires Without(rest, tasks, id) && Listed(tasks, i) && i != id
    ensures Listed(rest, i)
  {
    var u :| u in tasks && u.id == i;
    WhatRemains(rest, tasks, id, u);
  }

  /** Taking an id off a list, whether it was there or not. */
  lemma HoldsRemoved(list: List, tasks: multiset<ScheduledTask>, phase: map<Id, Phase>, id: Id, to: Phase,
                     tasks': multiset<ScheduledTask>)
    requires Holds(list, tasks, phase) && Without(tasks', tasks, id) && !list.Is(to)
    ensures Holds(list, tasks', phase[id := to])
  {
    hide Without, Listed;
    var phase' := phase[id := to];
    forall u | u in tasks'
      ensures u in tasks && tasks'[u] == 1 && TaskFits(list, phase', u)
    {
      WhatRemains(tasks', tasks, id, u);
      assert TaskFits(list, phase, u);
    }
    forall i | i in phase' && list.Is(phase'[i])
      ensures Listed(tasks', i)
    {
      StillListed(tasks, id, tasks', i);
    }
  }

  /** Taking the one task of an id away is taking all tasks of the id away. */
  lemma OneOfEach(list: List, tasks: multiset<ScheduledTask>, phase: map<Id, Phase>, t: ScheduledTask,
                  tasks': multiset<ScheduledTask>)
    requires Holds(list, tasks, phase) && tasks' + multiset{t} == tasks
    ensures Without(tasks', tasks, t.id) && TaskFits(list, phase, t)
  {
    assert t in tasks;
    forall u
      ensures tasks'[u] == if u.id != t.id then tasks[u] else 0
    {
      assert (tasks' + multiset{t})[u] == tasks[u];
      if u.id == t.id && u in tasks {
        assert u == t;
      }
    }
  }

  /** A list does not notice when ids move between phases that are in it, or between others, as long as the
      tasks in it keep fitting. */
  lemma HoldsStill(list: List, tasks: multiset<ScheduledTask>, phase: map<Id, Phase>, phase': map<Id, Phase>)
    requires Holds(list, tasks, phase)
    requires forall i :: i in phase && list.Is(phase[i]) ==>
               i in phase' && list.Is(phase'[i]) && (phase'[i] == phase[i] || phase'[i].Reported?)
    requires forall i :: i in phase' && list.Is(phase'[i]) ==> i in phase && list.Is(phase[i])
    ensures Holds(list, tasks, phase')
  {
    forall t | t in tasks
      ensures TaskFits(list, phase', t)
    {
      assert TaskFits(list, phase, t);
    }
  }

  /** Dropping an id from a list that does not hold it changes nothing. */
  lemma NothingDropped(list: List, tasks: multiset<ScheduledTask>, phase: map<Id, Phase>, id: Id,
                       rest: multiset<ScheduledTask>)
    requires Holds(list, tasks, phase) && Without(rest, tasks, id)
    requires id in phase ==> !list.Is(phase[id])
    ensures rest == tasks
  {
    forall u
      ensures rest[u] == tasks[u]
    {
      assert u in tasks ==> TaskFits(list, phase, u);
    }
  }

  // ----- The ledger agrees after every section ------------------------------------------------------

  lemma CheckAgrees(maxQueueSize: nat, l: Life, request: Request)
    requires Agrees(l) && request.id !in l.phase
    ensures Agrees(AfterCheck(maxQueueSize, l, request))
  {
    hide Holds, CancelsFit, HandFits;
    var l' := AfterCheck(maxQueueSize, l, request);
    if l' != l {
      HoldsStill(Queue, multiset(l.sched.queue), l.phase, l'.phase);
      HoldsStill(List.Processing, multiset(l.sched.processing), l.phase, l'.phase);
      assert FitsLedger(l, request.id);
      CancelsStill(l, l', request.id);
      OneMoves(l, l', request.id);
    }
  }

  lemma PushAgrees(l: Life, id: Id, at: int)
    requires Agrees(l) && id in l.entering
    ensures Agrees(AfterPush(l, id, at))
  {
    hide Holds, CancelsFit, HandFits, Push;
    assert FitsLedger(l, id);
    var l' := AfterPush(l, id, at);
    var task := NewTask(l.entering[id], at);
    HoldsAdded(Queue, multiset(l.sched.queue), l.phase, task, Waiting(0), multiset(l'.sched.queue));
    HoldsStill(List.Processing, multiset(l.sched.processing), l.phase, l'.phase);
    CancelsStill(l, l', id);
    OneMoves(l, l', id);
  }

  lemma PopFits(l: Life, task: ScheduledTask)
    requires FitsLedger(l, task.id) && Popped(l.sched).0 == Some(task) && TaskFits(Queue, l.phase, task)
    ensures ConcernsOnly(l, AfterPop(l), task.id) && FitsLedger(AfterPop(l), task.id)
  {
    hide Pop;
  }

  lemma PopAgrees(l: Life)
    requires Agrees(l)
    ensures Agrees(AfterPop(l))
  {
    hide Holds, CancelsFit, Pop, FitsLedger, ConcernsOnly, TaskFits;
    var (top, sched) := Popped(l.sched);
    if top.Some? {
      var task, l' := top.value, AfterPop(l);
      var before, after := multiset(l.sched.queue), multiset(l'.sched.queue);
      assert after + multiset{task} == before;
      OneOfEach(Queue, before, l.phase, task, after);
      InQueue(l, task);
      HoldsRemoved(Queue, before, l.phase, task.id, HandedOut(task.retryCount), after);
      HoldsStill(List.Processing, multiset(l.sched.processing), l.phase, l'.phase);
      PopFits(l, task);
      CancelsStill(l, l', task.id);
      OneMoves(l, l', task.id);
    }
  }

  lemma InQueue(l: Life, task: ScheduledTask)
    requires TaskFits(Queue, l.phase, task)
    ensures At(l, task.id, Waiting(task.retryCount))
  {
  }

  lemma StartAgrees(l: Life, id: Id)
    requires Agrees(l) && Enabled(l, Start(id))
    ensures Agrees(AfterStart(l, id))
  {
    hide Holds, CancelsFit;
    assert FitsLedger(l, id);
    var l', task := AfterStart(l, id), l.hands[id];
    HoldsAdded(List.Processing, multiset(l.sched.processing), l.phase, task, Running(task.retryCount),
               multiset(l'.sched.processing));
    HoldsStill(Queue, multiset(l.sched.queue), l.phase, l'.phase);
    CancelsStill(l, l', id);
    OneMoves(l, l', id);
  }

  lemma InsertFits(l: Life, id: Id, success: bool, at: int)
    requires FitsLedger(l, id) && Enabled(l, InsertResult(id, success, at))
    ensures ConcernsOnly(l, AfterInsert(l, id, success, at), id) && FitsLedger(AfterInsert(l, id, success, at), id)
  {
  }

  lemma InsertAgrees(l: Life, id: Id, success: bool, at: int)
    requires Agrees(l) && Enabled(l, InsertResult(id, success, at))
    ensures Agrees(AfterInsert(l, id, success, at))
  {
    hide Holds, CancelsFit, FitsLedger, ConcernsOnly;
    var l' := AfterInsert(l, id, success, at);
    HoldsStill(Queue, multiset(l.sched.queue), l.phase, l'.phase);
    HoldsStill(List.Processing, multiset(l.sched.processing), l.phase, l'.phase);
    InsertFits(l, id, success, at);
    CancelsStill(l, l', id);
    OneMoves(l, l', id);
  }

  /** Removing an id from processing keeps the lists in agreement, whether or not it is still there. */
  lemma ReleaseHolds(l: Life, id: Id, to: Phase, processing: multiset<ScheduledTask>)
    requires Agrees(l) && id in l.phase && !l.phase[id].Waiting? && !Queue.Is(to) && !List.Processing.Is(to)
    requires Without(processing, multiset(l.sched.processing), id)
    ensures Holds(Queue, multiset(l.sched.queue), l.phase[id := to])
    ensures Holds(List.Processing, processing, l.phase[id := to])
  {
    hide Holds, FitsLedger, CancelsFit;
    HoldsStill(Queue, multiset(l.sched.queue), l.phase, l.phase[id := to]);
    HoldsRemoved(List.Processing, multiset(l.sched.processing), l.phase, id, to, processing);
  }

  lemma LeaveAgrees(l: Life, id: Id)
    requires Agrees(l) && Enabled(l, LeaveProcessing(id))
    ensures Agrees(AfterLeave(l, id))
  {
    hide Holds, CancelsFit, WithoutId, HandFits;
    assert FitsLedger(l, id);
    var l' := AfterLeave(l, id);
    ReleaseHolds(l, id, l'.phase[id], multiset(l'.sched.processing));
    CancelsStill(l, l', id);
    OneMoves(l, l', id);
  }

  /** A busy id is in processing exactly when it was not cancelled. */
  lemma TakenIfRunning(l: Life, id: Id)
    requires Agrees(l) && Busy(l, id)
    ensures var (found, rest) := TakenBack(l.sched, id);
            && (found.Some? <==> l.phase[id].Running?)
            && Without(multiset(rest.processing), multiset(l.sched.processing), id)
            && (found.Some? ==> found.value.id == id && TaskFits(List.Processing, l.phase, found.value))
  {
    hide FitsLedger, CancelsFit;
    var (found, rest) := TakenBack(l.sched, id);
    var before := multiset(l.sched.processing);
    if found.Some? {
      OneOfEach(List.Processing, before, l.phase, found.value, multiset(rest.processing));
    } else {
      assert forall t :: t in before ==> t in l.sched.processing;
      assert !Listed(before, id);
    }
  }

  lemma TakeBackFits(l: Life, id: Id)
    requires FitsLedger(l, id) && Busy(l, id) && (TakenBack(l.sched, id).0.Some? <==> l.phase[id].Running?)
    requires TakenBack(l.sched, id).0.Some? ==> TaskFits(List.Processing, l.phase, TakenBack(l.sched, id).0.value)
    ensures ConcernsOnly(l, AfterTakeBack(l, id), id) && FitsLedger(AfterTakeBack(l, id), id)
  {
    hide TakenBack;
  }

  lemma TakeBackAgrees(l: Life, id: Id)
    requires Agrees(l) && Busy(l, id)
    ensures Agrees(AfterTakeBack(l, id))
  {
    hide Holds, CancelsFit, TakenBack, Without, FitsLedger, ConcernsOnly, TaskFits;
    TakenIfRunning(l, id);
    TakeBackFits(l, id);
    var l' := AfterTakeBack(l, id);
    ReleaseHolds(l, id, l'.phase[id], multiset(l'.sched.processing));
    CancelsStill(l, l', id);
    OneMoves(l, l', id);
  }

  lemma RequeueAgrees(l: Life, id: Id, at: int)
    requires Agrees(l) && Enabled(l, Requeue(id, at))
    ensures Agrees(AfterRequeue(l, id, at))
  {
    hide Holds, CancelsFit, Push;
    assert FitsLedger(l, id);
    var l', task := AfterRequeue(l, id, at), Rescheduled(Again(l.hands[id]), at);
    HoldsAdded(Queue, multiset(l.sched.queue), l.phase, task, Waiting(task.retryCount), multiset(l'.sched.queue));
    HoldsStill(List.Processing, multiset(l.sched.processing), l.phase, l'.phase);
    CancelsStill(l, l', id);
    OneMoves(l, l', id);
  }

  /** A list has an id exactly when the id is in one of its phases. */
  lemma HoldsMembers(list: List, tasks: seq<ScheduledTask>, phase: map<Id, Phase>, id: Id)
    requires Holds(list, multiset(tasks), phase)
    ensures HasTask(tasks, id) <==> id in phase && list.Is(phase[id])
  {
    if id in phase && list.Is(phase[id]) {
      assert Listed(multiset(tasks), id);
      var t :| t in multiset(tasks) && t.id == id;
      assert t in tasks;
    }
    if t :| t in tasks && t.id == id {
      assert t in multiset(tasks);
      assert TaskFits(list, phase, t);
    }
  }

  lemma CancelQueuedDrops(s: Sched, id: Id)
    ensures Without(multiset(NotQueued(s, id).queue), multiset(s.queue), id)
    ensures NotQueued(s, id) == s.(queue := NotQueued(s, id).queue)
  {
    hide Retain;
  }

  lemma CancelQueuedHolds(l: Life, id: Id, rest: multiset<ScheduledTask>, phase: map<Id, Phase>)
    requires Agrees(l) && Without(rest, multiset(l.sched.queue), id)
    requires phase == if id in l.phase && l.phase[id].Waiting? then l.phase[id := Dropped(false)] else l.phase
    ensures Holds(Queue, rest, phase) && Holds(List.Processing, multiset(l.sched.processing), phase)
  {
    hide Holds, Without, FitsLedger, CancelsFit;
    if id in l.phase && l.phase[id].Waiting? {
      HoldsRemoved(Queue, multiset(l.sched.queue), l.phase, id, Dropped(false), rest);
      HoldsStill(List.Processing, multiset(l.sched.processing), l.phase, phase);
    } else {
      NothingDropped(Queue, multiset(l.sched.queue), l.phase, id, rest);
    }
  }

  lemma CancelQueuedCancels(l: Life, actor: Actor, id: Id)
    requires Agrees(l)
    ensures CancelsFit(AfterCancelQueued(l, actor, id))
  {
    hide Holds, FitsLedger, NotQueued, HasTask;
    HoldsMembers(Queue, l.sched.queue, l.phase, id);
  }

  lemma CancelQueuedFits(l: Life, actor: Actor, id: Id)
    requires FitsLedger(l, id)
    ensures ConcernsOnly(l, AfterCancelQueued(l, actor, id), id) && FitsLedger(AfterCancelQueued(l, actor, id), id)
  {
    CancelQueuedDrops(l.sched, id);
    hide NotQueued, HasTask, Without;
  }

  lemma CancelQueuedAgrees(l: Life, actor: Actor, id: Id)
    requires Agrees(l) && actor !in l.cancels
    ensures Agrees(AfterCancelQueued(l, actor, id))
  {
    hide Holds, Without, NotQueued, HasTask, FitsLedger, CancelsFit, ConcernsOnly;
    var l' := AfterCancelQueued(l, actor, id);
    CancelQueuedDrops(l.sched, id);
    CancelQueuedHolds(l, id, multiset(l'.sched.queue), l'.phase);
    CancelQueuedCancels(l, actor, id);
    CancelQueuedFits(l, actor, id);
    OneMoves(l, l', id);
  }

  lemma CancelProcessingHolds(l: Life, id: Id, rest: multiset<ScheduledTask>, phase: map<Id, Phase>)
    requires Agrees(l) && Without(rest, multiset(l.sched.processing), id)
    requires phase == if id in l.phase then l.phase[id := Unlisted(l.phase[id])] else l.phase
    ensures Holds(Queue, multiset(l.sched.queue), phase) && Holds(List.Processing, rest, phase)
  {
    hide Holds, Without, FitsLedger, CancelsFit;
    HoldsStill(Queue, multiset(l.sched.queue), l.phase, phase);
    if id in l.phase {
      HoldsRemoved(List.Processing, multiset(l.sched.processing), l.phase, id, Unlisted(l.phase[id]), rest);
    } else {
      NothingDropped(List.Processing, multiset(l.sched.processing), l.phase, id, rest);
    }
  }

  lemma CancelProcessingAgrees(l: Life, actor: Actor)
    requires Agrees(l) && actor in l.cancels
    ensures Agrees(AfterCancelProcessing(l, actor))
  {
    hide Holds, WithoutId, HandFits;
    var l', id := AfterCancelProcessing(l, actor), l.cancels[actor].id;
    CancelProcessingHolds(l, id, multiset(l'.sched.processing), l'.phase);
    assert FitsLedger(l, id);
    OneMoves(l, l', id);
  }

  lemma ClearFits(l: Life, l': Life, cutoff: int, id: Id)
    requires FitsLedger(l, id) && (l' == AfterClearCompleted(l, cutoff) || l' == AfterClearFailed(l, cutoff))
    ensures FitsLedger(l', id)
  {
    hide HandFits;
  }

  /** Clearing takes no id out of its list, nor out of the hands of a cancellation. */
  lemma ClearHolds(l: Life, l': Life, cutoff: int)
    requires Agrees(l) && (l' == AfterClearCompleted(l, cutoff) || l' == AfterClearFailed(l, cutoff))
    ensures Holds(Queue, multiset(l'.sched.queue), l'.phase)
    ensures Holds(List.Processing, multiset(l'.sched.processing), l'.phase) && CancelsFit(l')
  {
    hide Holds, FitsLedger;
    HoldsStill(Queue, multiset(l.sched.queue), l.phase, l'.phase);
    HoldsStill(List.Processing, multiset(l.sched.processing), l.phase, l'.phase);
  }

  lemma ClearAgrees(l: Life, l': Life, cutoff: int)
    requires Agrees(l) && (l' == AfterClearCompleted(l, cutoff) || l' == AfterClearFailed(l, cutoff))
    ensures Agrees(l')
  {
    hide Holds, FitsLedger, CancelsFit, AfterClearCompleted, AfterClearFailed;
    ClearHolds(l, l', cutoff);
    forall id
      ensures FitsLedger(l', id)
    {
      ClearFits(l, l', cutoff, id);
    }
  }

  lemma StepAgrees(maxQueueSize: nat, l: Life, e: Event)
    requires Agrees(l) && Enabled(l, e)
    ensures Agrees(Step(maxQueueSize, l, e))
  {
    hide Agrees;
    match e
    case CheckCapacity(request) => CheckAgrees(maxQueueSize, l, request);
    case PushTask(id, at) => PushAgrees(l, id, at);
    case PopNext => PopAgrees(l);
    case Start(id) => StartAgrees(l, id);
    case InsertResult(id, success, at) => InsertAgrees(l, id, success, at);
    case LeaveProcessing(id) => LeaveAgrees(l, id);
    case TakeBack(id) => TakeBackAgrees(l, id);
    case Requeue(id, at) => RequeueAgrees(l, id, at);
    case CancelQueued(actor, id) => CancelQueuedAgrees(l, actor, id);
    case CancelProcessing(actor) => CancelProcessingAgrees(l, actor);
    case ClearCompleted(cutoff) => ClearAgrees(l, AfterClearCompleted(l, cutoff), cutoff);
    case ClearFailed(cutoff) => ClearAgrees(l, AfterClearFailed(l, cutoff), cutoff);
  }

  /** In every reachable state, also between the sections of one operation, the queue, the tasks in
      processing and in hands, the two maps of results and the pop counts are exactly what the ledger says. */
  lemma {:induction false} RunAgrees(maxQueueSize: nat, events: seq<Event>)
    requires Reach(maxQueueSize, events).Some?
    ensures Agrees(Reach(maxQueueSize, events).value)
  {
    if events != [] {
      RunAgrees(maxQueueSize, events[..|events| - 1]);
      hide Agrees, Step, Enabled;
      StepAgrees(maxQueueSize, Reach(maxQueueSize, events[..|events| - 1]).value, events[|events| - 1]);
    }
  }
}
