/** The task scheduler of src/queue/scheduler.rs: a priority queue, the tasks being processed and the
    results of finished tasks.

    Instants and durations are integers counting seconds.  Of a request only the id and the priority
    matter here.  The functions below are sections of the code that hold one lock; those that compose them,
    `CompletedTask`, `RetriedTask`, `CancelledTask` and `ClearedTasks`, are calls that nothing interrupts, as
    are the methods of the class.  `TaskLifecycle` interleaves the sections. */
module Scheduler {
  import opened Wrappers
  import opened BinaryHeap

  type Id = nat

  datatype Priority = Low | Normal | High | Critical {
    /** The order in which the priorities are declared. */
    predicate Below(other: Priority) {
      match this
      case Low => !other.Low?
      case Normal => other.High? || other.Critical?
      case High => other.Critical?
      case Critical => false
    }

    function Weight(): nat {
      match this
      case Low => 1
      case Normal => 2
      case High => 3
      case Critical => 4
    }
  }

  datatype Request = Request(id: Id, priority: Priority)

  datatype ScheduledTask = ScheduledTask(id: Id, request: Request, priority: nat, createdAt: int, scheduledAt: int,
                                         retryCount: nat, maxRetries: nat)

  datatype TaskResult = TaskResult(id: Id, success: bool, completedAt: int)

  datatype TaskStatus = Pending | Processing | Completed | Failed | NotFound

  const MAX_RETRIES: nat := 3

  // ----- The order of tasks -----------------------------------------------------------------------

  datatype Ordering = Less | Equal | Greater {
    function ThenWith(next: Ordering): Ordering {
      if this.Equal? then next else this
    }
  }

  function Compare(a: int, b: int): Ordering {
    if a < b then Less else if a == b then Equal else Greater
  }

  /** The comparison as it is written. */
  function Cmp(a: ScheduledTask, b: ScheduledTask): Ordering {
    Compare(b.priority, a.priority).ThenWith(Compare(a.scheduledAt, b.scheduledAt))
  }

  /** The order the max-heap works with. */
  predicate AtMost(a: ScheduledTask, b: ScheduledTask) {
    !Cmp(a, b).Greater?
  }

  /** The order its comment and its test describe: `b` should run no later than `a`, having a higher
      priority or the same one and an earlier time. */
  predicate NoMoreUrgent(a: ScheduledTask, b: ScheduledTask) {
    a.priority < b.priority || (a.priority == b.priority && a.scheduledAt >= b.scheduledAt)
  }

  // ----- What the operations do -------------------------------------------------------------------

  datatype Sched = Sched(queue: seq<ScheduledTask>, processing: seq<ScheduledTask>,
                         completed: map<Id, TaskResult>, failed: map<Id, TaskResult>)

  function NewTask(request: Request, now: int): ScheduledTask {
    ScheduledTask(request.id, request, request.priority.Weight(), now, now, 0, MAX_RETRIES)
  }

  function Queued(s: Sched, task: ScheduledTask): Sched {
    s.(queue := Push(AtMost, s.queue, task))
  }

  function Popped(s: Sched): (Option<ScheduledTask>, Sched) {
    var (top, rest) := Pop(AtMost, s.queue);
    (top, s.(queue := rest))
  }

  function Started(s: Sched, task: ScheduledTask): Sched {
    s.(processing := s.processing + [task])
  }

  function WithResult(s: Sched, id: Id, success: bool, now: int): Sched {
    var result := TaskResult(id, success, now);
    if success then s.(completed := s.completed[id := result]) else s.(failed := s.failed[id := result])
  }

  predicate HasTask(tasks: seq<ScheduledTask>, id: Id) {
    exists t :: t in tasks && t.id == id
  }

  function WithoutId(tasks: seq<ScheduledTask>, id: Id): (r: seq<ScheduledTask>)
    ensures forall t :: multiset(r)[t] == if t.id != id then multiset(tasks)[t] else 0
  {
    Filter((t: ScheduledTask) => t.id != id, tasks)
  }

  function NotProcessing(s: Sched, id: Id): Sched {
    s.(processing := WithoutId(s.processing, id))
  }

  /** The position of the first task with the id, or the length of the list. */
  function Position(tasks: seq<ScheduledTask>, id: Id): (k: nat)
    ensures k <= |tasks| && (k < |tasks| ==> tasks[k].id == id)
    ensures forall i :: 0 <= i < k ==> tasks[i].id != id
  {
    if tasks == [] || tasks[0].id == id then 0 else 1 + Position(tasks[1..], id)
  }

  /** Takes the first task with the id out of processing. */
  function TakenBack(s: Sched, id: Id): (r: (Option<ScheduledTask>, Sched))
    ensures r.0.Some? ==> r.0.value.id == id && multiset(r.1.processing) + multiset{r.0.value} == multiset(s.processing)
    ensures r.0.None? ==> r.1 == s && !HasTask(s.processing, id)
    ensures r.1 == s.(processing := r.1.processing)
  {
    var k := Position(s.processing, id);
    if k < |s.processing| then
      assert s.processing == s.processing[..k] + [s.processing[k]] + s.processing[k + 1..];
      (Some(s.processing[k]), s.(processing := s.processing[..k] + s.processing[k + 1..]))
    else (None, s)
  }

  lemma TakenAt(s: Sched, id: Id)
    ensures var k := Position(s.processing, id);
            TakenBack(s, id) ==
            if k == |s.processing| then (None, s)
            else (Some(s.processing[k]), s.(processing := s.processing[..k] + s.processing[k + 1..]))
  {
  }

  function Again(task: ScheduledTask): ScheduledTask {
    task.(retryCount := task.retryCount + 1)
  }

  function Rescheduled(task: ScheduledTask, now: int): ScheduledTask {
    task.(scheduledAt := now + 5 * task.retryCount)
  }

  function CompletedTask(s: Sched, id: Id, success: bool, now: int): Sched {
    NotProcessing(WithResult(s, id, success, now), id)
  }

  function RetriedTask(s: Sched, id: Id, now: int): Sched {
    var (found, rest) := TakenBack(s, id);
    match found
    case None => s
    case Some(task) =>
      var again := Again(task);
      if again.retryCount <= again.maxRetries then Queued(rest, Rescheduled(again, now))
      else CompletedTask(rest, id, false, now)
  }

  function NotQueued(s: Sched, id: Id): Sched {
    s.(queue := Retain(AtMost, (t: ScheduledTask) => t.id != id, s.queue))
  }

  function CancelledTask(s: Sched, id: Id): Sched {
    NotProcessing(NotQueued(s, id), id)
  }

  function Since(results: map<Id, TaskResult>, cutoff: int): map<Id, TaskResult> {
    map id | id in results && results[id].completedAt > cutoff :: results[id]
  }

  function ClearedCompleted(s: Sched, cutoff: int): Sched {
    s.(completed := Since(s.completed, cutoff))
  }

  function ClearedFailed(s: Sched, cutoff: int): Sched {
    s.(failed := Since(s.failed, cutoff))
  }

  function ClearedTasks(s: Sched, cutoff: int): Sched {
    ClearedFailed(ClearedCompleted(s, cutoff), cutoff)
  }

  function StatusOf(s: Sched, id: Id): TaskStatus {
    if HasTask(s.queue, id) then TaskStatus.Pending
    else if HasTask(s.processing, id) then TaskStatus.Processing
    else if id in s.completed then TaskStatus.Completed
    else if id in s.failed then TaskStatus.Failed
    else NotFound
  }

  ghost predicate SameResults(s: Sched, s': Sched) {
    s'.completed == s.completed && s'.failed == s.failed
  }

  /** Of the sections only reporting and clearing change the results. */
  lemma OnlyReportsChangeResults(s: Sched)
    ensures SameResults(s, Popped(s).1)
    ensures forall task :: SameResults(s, Queued(s, task)) && SameResults(s, Started(s, task))
    ensures forall id :: SameResults(s, NotQueued(s, id)) && SameResults(s, NotProcessing(s, id))
    ensures forall id :: SameResults(s, TakenBack(s, id).1)
  {
    hide Push, Pop, Retain, WithoutId, Position;
  }

  class TaskScheduler {
    var priorityQueue: seq<ScheduledTask>
    var processingQueue: seq<ScheduledTask>
    var completedTasks: map<Id, TaskResult>
    var failedTasks: map<Id, TaskResult>
    const maxQueueSize: nat

    constructor (maxQueueSize: nat)
      ensures this.maxQueueSize == maxQueueSize && Contents() == Sched([], [], map[], map[])
    {
      this.maxQueueSize := maxQueueSize;
      priorityQueue, processingQueue, completedTasks, failedTasks := [], [], map[], map[];
    }

    ghost function Contents(): Sched
      reads this
    {
      Sched(priorityQueue, processingQueue, completedTasks, failedTasks)
    }

    method ScheduleTask(request: Request, now: int) returns (ok: bool)
      modifies this
      ensures ok == (|old(priorityQueue)| < maxQueueSize)
      ensures Contents() == if ok then Queued(old(Contents()), NewTask(request, now)) else old(Contents())
    {
      if |priorityQueue| >= maxQueueSize {
        return false;
      }
      priorityQueue := Push(AtMost, priorityQueue, NewTask(request, now));
      return true;
    }

    method GetNextTask() returns (task: Option<ScheduledTask>)
      modifies this
      ensures (task, Contents()) == Popped(old(Contents()))
    {
      var (top, rest) := Pop(AtMost, priorityQueue);
      priorityQueue := rest;
      return top;
    }

    method StartProcessing(task: ScheduledTask)
      modifies this
      ensures Contents() == Started(old(Contents()), task)
    {
      processingQueue := processingQueue + [task];
    }

    method CompleteTask(id: Id, success: bool, now: int)
      modifies this
      ensures Contents() == CompletedTask(old(Contents()), id, success, now)
    {
      var result := TaskResult(id, success, now);
      if success {
        completedTasks := completedTasks[id := result];
      } else {
        failedTasks := failedTasks[id := result];
      }
      processingQueue := WithoutId(processingQueue, id);
    }

    method RetryTask(id: Id, now: int)
      modifies this
      ensures Contents() == RetriedTask(old(Contents()), id, now)
    {
      hide Push, WithoutId, Position, TakenBack, CompletedTask;
      ghost var before := Contents();
      TakenAt(before, id);
      var k := Position(processingQueue, id);
      if k < |processingQueue| {
        var task := processingQueue[k];
        processingQueue := processingQueue[..k] + processingQueue[k + 1..];
        task := task.(retryCount := task.retryCount + 1);
        if task.retryCount <= task.maxRetries {
          task := task.(scheduledAt := now + 5 * task.retryCount);
          priorityQueue := Push(AtMost, priorityQueue, task);
        } else {
          CompleteTask(id, false, now);
        }
      }
    }

    method GetTaskStatus(id: Id) returns (status: TaskStatus)
      ensures status == StatusOf(Contents(), id)
    {
      if exists t :: t in priorityQueue && t.id == id {
        return TaskStatus.Pending;
      }
      if exists t :: t in processingQueue && t.id == id {
        return TaskStatus.Processing;
      }
      if id in completedTasks {
        return TaskStatus.Completed;
      }
      if id in failedTasks {
        return TaskStatus.Failed;
      }
      return NotFound;
    }

    method CancelTask(id: Id) returns (cancelled: bool)
      modifies this
      ensures Contents() == CancelledTask(old(Contents()), id)
      ensures cancelled == (HasTask(old(priorityQueue), id) || HasTask(old(processingQueue), id))
    {
      hide Retain, WithoutId;
      cancelled := false;
      var queue := Retain(AtMost, (t: ScheduledTask) => t.id != id, priorityQueue);
      ShorterIfFound(priorityQueue, queue, id);
      cancelled := cancelled || |queue| < |priorityQueue|;
      priorityQueue := queue;
      var processing := WithoutId(processingQueue, id);
      ShorterIfFound(processingQueue, processing, id);
      cancelled := cancelled || |processing| < |processingQueue|;
      processingQueue := processing;
    }

    method ClearCompletedTasks(olderThan: nat, now: int) returns (removed: int)
      modifies this
      ensures Contents() == ClearedTasks(old(Contents()), now - olderThan)
      ensures removed == (|old(completedTasks)| - |completedTasks|) + (|old(failedTasks)| - |failedTasks|)
    {
      var cutoff := now - olderThan;
      removed := 0;
      var originalLen := |completedTasks|;
      completedTasks := Since(completedTasks, cutoff);
      removed := removed + (originalLen - |completedTasks|);
      originalLen := |failedTasks|;
      failedTasks := Since(failedTasks, cutoff);
      removed := removed + (originalLen - |failedTasks|);
    }
  }

  /** Dropping the tasks with an id shortens a list exactly when there are some. */
  lemma ShorterIfFound(tasks: seq<ScheduledTask>, rest: seq<ScheduledTask>, id: Id)
    requires forall t :: multiset(rest)[t] == if t.id != id then multiset(tasks)[t] else 0
    ensures |rest| < |tasks| <==> HasTask(tasks, id)
  {
    var a, b := multiset(tasks), multiset(rest);
    assert a == b + (a - b);
    assert |a| == |tasks| && |b| == |rest|;
    if |rest| == |tasks| {
      assert |a - b| == 0;
      forall t | t in tasks
        ensures t.id != id
      {
        assert t in a && (a - b)[t] == 0;
      }
    }
    if t :| t in tasks && t.id == id {
      assert t in a && t !in b;
      assert t in a - b;
    } else {
      assert forall t :: t in a ==> t in tasks;
      assert a == b;
    }
  }

  // ----- The order the scheduler really works in --------------------------------------------------

  lemma OrdersAreTotal()
    ensures TotalPreorder(AtMost) && TotalPreorder(NoMoreUrgent)
  {
  }

  /** The written comparison is exactly the reverse of the described order. */
  lemma CmpReversesIntent(a: ScheduledTask, b: ScheduledTask)
    ensures AtMost(a, b) <==> NoMoreUrgent(b, a)
  {
  }

  /** So over every run of pushes, pops and retains the scheduler hands out a least urgent pending task,
      where a heap with the described order would hand out a most urgent one. */
  lemma PopsTheLeastUrgent(ops: seq<Op<ScheduledTask>>)
    ensures match Pop(AtMost, Run(AtMost, ops)).0
            case None => Run(AtMost, ops) == []
            case Some(top) => top in Run(AtMost, ops) && forall t :: t in Run(AtMost, ops) ==> NoMoreUrgent(top, t)
    ensures match Pop(NoMoreUrgent, Run(NoMoreUrgent, ops)).0
            case None => Run(NoMoreUrgent, ops) == []
            case Some(top) =>
              top in Run(NoMoreUrgent, ops) && forall t :: t in Run(NoMoreUrgent, ops) ==> NoMoreUrgent(t, top)
  {
    OrdersAreTotal();
    PopsTheBest(AtMost, ops);
    PopsTheBest(NoMoreUrgent, ops);
    forall a: ScheduledTask, b: ScheduledTask
      ensures AtMost(a, b) <==> NoMoreUrgent(b, a)
    {
      CmpReversesIntent(a, b);
    }
  }

  /** No two of the tasks differ in weight or time. */
  ghost predicate AllAlike(tasks: seq<ScheduledTask>) {
    forall t, u :: t in tasks && u in tasks ==> t.priority == u.priority && t.scheduledAt == u.scheduledAt
  }

  /** The task handed out is a most urgent one, as described, exactly when all pending tasks are equally
      urgent. */
  lemma MostUrgentIffAllAlike(ops: seq<Op<ScheduledTask>>, top: ScheduledTask)
    requires Pop(AtMost, Run(AtMost, ops)).0 == Some(top)
    ensures (forall t :: t in Run(AtMost, ops) ==> NoMoreUrgent(t, top)) <==> AllAlike(Run(AtMost, ops))
  {
    PopsTheLeastUrgent(ops);
    hide Run, Pop;
    var pending := Run(AtMost, ops);
    assert top in pending && forall t :: t in pending ==> NoMoreUrgent(top, t);
    if forall t :: t in pending ==> NoMoreUrgent(t, top) {
      forall t | t in pending
        ensures t.priority == top.priority && t.scheduledAt == top.scheduledAt
      {
        assert NoMoreUrgent(t, top) && NoMoreUrgent(top, t);
      }
    }
  }

  /** Draining a backlog runs it from the least to the most urgent task: weights never fall, and among
      equal weights the times never rise. */
  lemma BacklogRunsBackwards(ops: seq<Op<ScheduledTask>>, i: nat, j: nat)
    requires i < j < |Run(AtMost, ops)|
    ensures var order := Drain(AtMost, Run(AtMost, ops));
            && multiset(order) == multiset(Run(AtMost, ops)) && |order| == |Run(AtMost, ops)|
            && order[i].priority <= order[j].priority
            && (order[i].priority == order[j].priority ==> order[i].scheduledAt >= order[j].scheduledAt)
  {
    OrdersAreTotal();
    RunIsHeap(AtMost, ops);
    DrainDescends(AtMost, Run(AtMost, ops), i, j);
  }

  /** Two requests, pushed in either order with the instants they were scheduled at. */
  function PushedBoth(a: Request, at: int, b: Request, bt: int, aFirst: bool): seq<ScheduledTask> {
    if aFirst then Push(AtMost, Push(AtMost, [], NewTask(a, at)), NewTask(b, bt))
    else Push(AtMost, Push(AtMost, [], NewTask(b, bt)), NewTask(a, at))
  }

  lemma FirstOfTwo(a: Request, at: int, b: Request, bt: int, aFirst: bool)
    requires NoMoreUrgent(NewTask(a, at), NewTask(b, bt)) && !NoMoreUrgent(NewTask(b, bt), NewTask(a, at))
    ensures Pop(AtMost, PushedBoth(a, at, b, bt, aFirst)).0 == Some(NewTask(a, at))
  {
    var x, y := if aFirst then NewTask(a, at) else NewTask(b, bt), if aFirst then NewTask(b, bt) else NewTask(a, at);
    PushOne(AtMost, x);
    PushTwo(AtMost, x, y);
    hide Push;
  }

  /** The expectation of the scheduler's priority test fails for every pair of different priorities: after
      scheduling both, in either order, the lower one is handed out. */
  lemma LowerPriorityFirst(low: Request, high: Request, t0: int, t1: int, lowFirst: bool)
    requires low.priority.Below(high.priority)
    ensures Pop(AtMost, PushedBoth(low, t0, high, t1, lowFirst)).0 == Some(NewTask(low, t0))
  {
    FirstOfTwo(low, t0, high, t1, lowFirst);
  }

  /** Of two requests of the same priority the one scheduled later is handed out. */
  lemma LaterFirst(early: Request, late: Request, t0: int, t1: int, earlyFirst: bool)
    requires early.priority == late.priority && t0 < t1
    ensures Pop(AtMost, PushedBoth(late, t1, early, t0, !earlyFirst)).0 == Some(NewTask(late, t1))
  {
    FirstOfTwo(late, t1, early, t0, !earlyFirst);
  }
}
