/** The concurrency controller of src/queue/concurrency.rs: permits, and limits on summed resources that are
    checked under one lock and acted on under another.

    Usages are percentages, taken as exact numbers. */
module ConcurrencyController {

  type Id = nat

  datatype ResourceUsage = ResourceUsage(cpu: real, memory: real, network: real) {
    predicate NonNegative() {
      cpu >= 0.0 && memory >= 0.0 && network >= 0.0
    }
  }

  const LIMIT: real := 100.0

  datatype ActiveTask = ActiveTask(id: Id, timeoutAt: int, priority: nat, usage: ResourceUsage)

  function CpuSum(tasks: seq<ActiveTask>): real {
    if tasks == [] then 0.0 else CpuSum(tasks[..|tasks| - 1]) + tasks[|tasks| - 1].usage.cpu
  }

  function MemorySum(tasks: seq<ActiveTask>): real {
    if tasks == [] then 0.0 else MemorySum(tasks[..|tasks| - 1]) + tasks[|tasks| - 1].usage.memory
  }

  function NetworkSum(tasks: seq<ActiveTask>): real {
    if tasks == [] then 0.0 else NetworkSum(tasks[..|tasks| - 1]) + tasks[|tasks| - 1].usage.network
  }

  predicate Fits(active: seq<ActiveTask>, usage: ResourceUsage) {
    && CpuSum(active) + usage.cpu <= LIMIT
    && MemorySum(active) + usage.memory <= LIMIT
    && NetworkSum(active) + usage.network <= LIMIT
  }

  function WithoutId(tasks: seq<ActiveTask>, id: Id): seq<ActiveTask> {
    if tasks == [] then [] else
      var rest := WithoutId(tasks[..|tasks| - 1], id);
      if tasks[|tasks| - 1].id != id then rest + [tasks[|tasks| - 1]] else rest
  }

  function Unexpired(tasks: seq<ActiveTask>, now: int): seq<ActiveTask> {
    if tasks == [] then [] else
      var rest := Unexpired(tasks[..|tasks| - 1], now);
      if tasks[|tasks| - 1].timeoutAt <= now then rest else rest + [tasks[|tasks| - 1]]
  }

  /** What remains are exactly the other tasks, each as often as before. */
  lemma {:induction false} WithoutIdKeeps(tasks: seq<ActiveTask>, id: Id, t: ActiveTask)
    ensures multiset(WithoutId(tasks, id))[t] == if t.id != id then multiset(tasks)[t] else 0
  {
    if tasks != [] {
      var n := |tasks| - 1;
      WithoutIdKeeps(tasks[..n], id, t);
      assert tasks == tasks[..n] + [tasks[n]];
    }
  }

  lemma {:induction false} UnexpiredKeeps(tasks: seq<ActiveTask>, now: int, t: ActiveTask)
    ensures multiset(Unexpired(tasks, now))[t] == if t.timeoutAt > now then multiset(tasks)[t] else 0
    ensures |Unexpired(tasks, now)| <= |tasks|
  {
    if tasks != [] {
      var n := |tasks| - 1;
      UnexpiredKeeps(tasks[..n], now, t);
      assert tasks == tasks[..n] + [tasks[n]];
    }
  }

  class ConcurrencyController {
    var activeTasks: seq<ActiveTask>
    var permits: nat
    const taskTimeout: nat

    constructor (maxConcurrent: nat, taskTimeout: nat)
      ensures permits == maxConcurrent && this.taskTimeout == taskTimeout && activeTasks == []
    {
      permits, this.taskTimeout, activeTasks := maxConcurrent, taskTimeout, [];
    }

    /** An acquire that nobody interrupts; it waits for a permit before it starts.  It is admitted exactly when
        none of the three sums exceeds 100 with the new usage. */
    method AcquirePermit(taskId: Id, priority: nat, usage: ResourceUsage, now: int) returns (ok: bool)
      requires permits > 0
      modifies this
      ensures ok <==> && CpuSum(old(activeTasks)) + usage.cpu <= 100.0
                      && MemorySum(old(activeTasks)) + usage.memory <= 100.0
                      && NetworkSum(old(activeTasks)) + usage.network <= 100.0
      ensures ok ==> permits == old(permits) - 1
                     && activeTasks == old(activeTasks) + [ActiveTask(taskId, now + taskTimeout, priority, usage)]
      ensures !ok ==> permits == old(permits) && activeTasks == old(activeTasks)
    {
      permits := permits - 1;
      ok := CheckResourceLimits(usage);
      if !ok {
        permits := permits + 1;
        return;
      }
      activeTasks := activeTasks + [ActiveTask(taskId, now + taskTimeout, priority, usage)];
    }

    method CheckResourceLimits(usage: ResourceUsage) returns (ok: bool)
      ensures ok == Fits(activeTasks, usage)
      ensures ok <==> && CpuSum(activeTasks) + usage.cpu <= 100.0
                      && MemorySum(activeTasks) + usage.memory <= 100.0
                      && NetworkSum(activeTasks) + usage.network <= 100.0
    {
      var totalCpu, totalMemory, totalNetwork := 0.0, 0.0, 0.0;
      for i := 0 to |activeTasks|
        invariant totalCpu == CpuSum(activeTasks[..i]) && totalMemory == MemorySum(activeTasks[..i])
        invariant totalNetwork == NetworkSum(activeTasks[..i])
      {
        assert activeTasks[..i + 1][..i] == activeTasks[..i];
        totalCpu := totalCpu + activeTasks[i].usage.cpu;
        totalMemory := totalMemory + activeTasks[i].usage.memory;
        totalNetwork := totalNetwork + activeTasks[i].usage.network;
      }
      assert activeTasks[..|activeTasks|] == activeTasks;
      totalCpu := totalCpu + usage.cpu;
      totalMemory := totalMemory + usage.memory;
      totalNetwork := totalNetwork + usage.network;
      ok := !(totalCpu > 100.0 || totalMemory > 100.0 || totalNetwork > 100.0);
    }

    method ReleasePermit(taskId: Id)
      modifies this
      ensures forall t :: multiset(activeTasks)[t] == if t.id != taskId then multiset(old(activeTasks))[t] else 0
      ensures activeTasks == WithoutId(old(activeTasks), taskId) && permits == old(permits)
    {
      forall t: ActiveTask
        ensures multiset(WithoutId(activeTasks, taskId))[t] == if t.id != taskId then multiset(activeTasks)[t] else 0
      {
        WithoutIdKeeps(activeTasks, taskId, t);
      }
      activeTasks := WithoutId(activeTasks, taskId);
    }

    method CleanupExpiredTasks(now: int) returns (expired: nat)
      modifies this
      ensures forall t :: multiset(activeTasks)[t] == if t.timeoutAt > now then multiset(old(activeTasks))[t] else 0
      ensures activeTasks == Unexpired(old(activeTasks), now) && permits == old(permits)
      ensures expired == |old(activeTasks)| - |activeTasks|
    {
      var kept := Unexpired(activeTasks, now);
      UnexpiredKeeps(activeTasks, now, ActiveTask(0, 0, 0, ResourceUsage(0.0, 0.0, 0.0)));
      forall t: ActiveTask
        ensures multiset(kept)[t] == if t.timeoutAt > now then multiset(activeTasks)[t] else 0
      {
        UnexpiredKeeps(activeTasks, now, t);
      }
      expired := |activeTasks| - |kept|;
      activeTasks := kept;
    }
  }
}

/** Concurrent acquires: how far the sums can exceed the limit that each acquire checks. */
module ResourceSafety {
  import opened ConcurrencyController

  type Caller = nat

  /** The active tasks, the callers that hold a permit and have yet to check, those that have passed the
      check and have yet to register, and the permits in the hands of callers that are done. */
  datatype State = State(active: seq<ActiveTask>, asking: set<Caller>, passed: seq<ActiveTask>, held: nat)

  datatype Event =
    | TakePermit(caller: Caller)
    | Check(caller: Caller, task: ActiveTask)
    | Register(k: nat, timeoutAt: int)
    | Release(id: Id)
    | Expire(now: int)
    | DropPermit

  const INIT := State([], {}, [], 0)

  predicate Enabled(maxConcurrent: nat, s: State, e: Event) {
    match e
    case TakePermit(caller) => caller !in s.asking && |s.asking| + |s.passed| + s.held < maxConcurrent
    case Check(caller, task) => caller in s.asking && task.usage.NonNegative()
    case Register(k, _) => k < |s.passed|
    case DropPermit => s.held > 0
    case _ => true
  }

  function Step(s: State, e: Event): State
    requires e.Register? ==> e.k < |s.passed|
    requires e.DropPermit? ==> s.held > 0
  {
    match e
    case TakePermit(caller) => s.(asking := s.asking + {caller})
    case Check(caller, task) =>
      s.(asking := s.asking - {caller}, passed := if Fits(s.active, task.usage) then s.passed + [task] else s.passed)
    case Register(k, timeoutAt) =>
      s.(active := s.active + [s.passed[k].(timeoutAt := timeoutAt)], passed := s.passed[..k] + s.passed[k + 1..],
         held := s.held + 1)
    case Release(id) => s.(active := WithoutId(s.active, id))
    case Expire(now) => s.(active := Unexpired(s.active, now))
    case DropPermit => s.(held := s.held - 1)
  }

  /** The state after the events, if each is possible when it is due and never more than `width` callers
      are between check and registration. */
  function Run(maxConcurrent: nat, width: nat, events: seq<Event>): State
    requires Possible(maxConcurrent, width, events)
    decreases |events|, 1
  {
    if events == [] then INIT else Step(Run(maxConcurrent, width, events[..|events| - 1]), events[|events| - 1])
  }

  predicate Possible(maxConcurrent: nat, width: nat, events: seq<Event>)
    decreases |events|, 0
  {
    events == [] ||
    (var front, e := events[..|events| - 1], events[|events| - 1];
     && Possible(maxConcurrent, width, front)
     && Enabled(maxConcurrent, Run(maxConcurrent, width, front), e)
     && |Step(Run(maxConcurrent, width, front), e).passed| <= width)
  }

  ghost predicate AllNonNegative(tasks: seq<ActiveTask>) {
    forall i :: 0 <= i < |tasks| ==> tasks[i].usage.NonNegative()
  }

  ghost predicate AllWithinLimit(tasks: seq<ActiveTask>) {
    forall i :: 0 <= i < |tasks| ==>
      tasks[i].usage.cpu <= LIMIT && tasks[i].usage.memory <= LIMIT && tasks[i].usage.network <= LIMIT
  }

  /** Everything active or about to be is within the limit times `width`. */
  ghost predicate Safe(maxConcurrent: nat, width: nat, s: State) {
    && AllNonNegative(s.active) && AllNonNegative(s.passed) && AllWithinLimit(s.passed)
    && |s.asking| + |s.passed| + s.held <= maxConcurrent
    && |s.passed| <= width
    && CpuSum(s.active) + CpuSum(s.passed) <= width as real * LIMIT
    && MemorySum(s.active) + MemorySum(s.passed) <= width as real * LIMIT
    && NetworkSum(s.active) + NetworkSum(s.passed) <= width as real * LIMIT
  }

  // ----- Sums ---------------------------------------------------------------------------------------

  lemma SumsAppend(tasks: seq<ActiveTask>, t: ActiveTask)
    ensures CpuSum(tasks + [t]) == CpuSum(tasks) + t.usage.cpu
    ensures MemorySum(tasks + [t]) == MemorySum(tasks) + t.usage.memory
    ensures NetworkSum(tasks + [t]) == NetworkSum(tasks) + t.usage.network
  {
    assert (tasks + [t])[..|tasks|] == tasks;
  }

  lemma {:induction false} SumsNonNegative(tasks: seq<ActiveTask>)
    requires AllNonNegative(tasks)
    ensures CpuSum(tasks) >= 0.0 && MemorySum(tasks) >= 0.0 && NetworkSum(tasks) >= 0.0
  {
    if tasks != [] {
      SumsNonNegative(tasks[..|tasks| - 1]);
    }
  }

  lemma {:induction false} SumsWithinLimit(tasks: seq<ActiveTask>)
    requires AllWithinLimit(tasks)
    ensures var bound := |tasks| as real * LIMIT;
            CpuSum(tasks) <= bound && MemorySum(tasks) <= bound && NetworkSum(tasks) <= bound
  {
    if tasks != [] {
      SumsWithinLimit(tasks[..|tasks| - 1]);
    }
  }

  lemma {:induction false} SumsWithoutOne(tasks: seq<ActiveTask>, k: nat)
    requires k < |tasks|
    ensures var rest, usage := tasks[..k] + tasks[k + 1..], tasks[k].usage;
            && CpuSum(rest) + usage.cpu == CpuSum(tasks)
            && MemorySum(rest) + usage.memory == MemorySum(tasks)
            && NetworkSum(rest) + usage.network == NetworkSum(tasks)
  {
    var n := |tasks| - 1;
    if k < n {
      SumsWithoutOne(tasks[..n], k);
      var rest := tasks[..n][..k] + tasks[..n][k + 1..];
      assert tasks[..k] + tasks[k + 1..] == rest + [tasks[n]];
      SumsAppend(rest, tasks[n]);
    } else {
      assert tasks[..k] + tasks[k + 1..] == tasks[..n];
    }
  }

  /** No sum of the one list is above that of the other. */
  ghost predicate SumsAtMost(a: seq<ActiveTask>, b: seq<ActiveTask>) {
    CpuSum(a) <= CpuSum(b) && MemorySum(a) <= MemorySum(b) && NetworkSum(a) <= NetworkSum(b)
  }

  /** Dropping tasks does not raise any sum. */
  lemma {:induction false} WithoutIdShrinks(tasks: seq<ActiveTask>, id: Id)
    requires AllNonNegative(tasks)
    ensures AllNonNegative(WithoutId(tasks, id)) && SumsAtMost(WithoutId(tasks, id), tasks)
  {
    if tasks != [] {
      var n := |tasks| - 1;
      WithoutIdShrinks(tasks[..n], id);
      SumsAppend(WithoutId(tasks[..n], id), tasks[n]);
    }
  }

  lemma {:induction false} UnexpiredShrinks(tasks: seq<ActiveTask>, now: int)
    requires AllNonNegative(tasks)
    ensures AllNonNegative(Unexpired(tasks, now)) && SumsAtMost(Unexpired(tasks, now), tasks)
  {
    if tasks != [] {
      var n := |tasks| - 1;
      UnexpiredShrinks(tasks[..n], now);
      SumsAppend(Unexpired(tasks[..n], now), tasks[n]);
    }
  }

  // ----- Safety -------------------------------------------------------------------------------------

  lemma CheckSafe(maxConcurrent: nat, width: nat, s: State, caller: Caller, task: ActiveTask)
    requires Safe(maxConcurrent, width, s) && Enabled(maxConcurrent, s, Check(caller, task))
    requires |Step(s, Check(caller, task)).passed| <= width
    ensures Safe(maxConcurrent, width, Step(s, Check(caller, task)))
  {
    if Fits(s.active, task.usage) {
      SumsNonNegative(s.active);
      SumsWithinLimit(s.passed);
      SumsAppend(s.passed, task);
      assert (|s.passed| + 1) as real * LIMIT <= width as real * LIMIT;
    }
  }

  lemma RegisterSafe(maxConcurrent: nat, width: nat, s: State, k: nat, timeoutAt: int)
    requires Safe(maxConcurrent, width, s) && k < |s.passed|
    ensures Safe(maxConcurrent, width, Step(s, Register(k, timeoutAt)))
  {
    SumsWithoutOne(s.passed, k);
    SumsAppend(s.active, s.passed[k].(timeoutAt := timeoutAt));
  }

  lemma StepSafe(maxConcurrent: nat, width: nat, s: State, e: Event)
    requires Safe(maxConcurrent, width, s) && Enabled(maxConcurrent, s, e) && |Step(s, e).passed| <= width
    ensures Safe(maxConcurrent, width, Step(s, e))
  {
    match e
    case TakePermit(caller) =>
    case Check(caller, task) => CheckSafe(maxConcurrent, width, s, caller, task);
    case Register(k, timeoutAt) => RegisterSafe(maxConcurrent, width, s, k, timeoutAt);
    case Release(id) => WithoutIdShrinks(s.active, id);
    case Expire(now) => UnexpiredShrinks(s.active, now);
    case DropPermit =>
  }

  lemma {:induction false} RunSafe(maxConcurrent: nat, width: nat, events: seq<Event>)
    requires Possible(maxConcurrent, width, events)
    ensures Safe(maxConcurrent, width, Run(maxConcurrent, width, events))
  {
    if events != [] {
      var front := events[..|events| - 1];
      RunSafe(maxConcurrent, width, front);
      hide Safe;
      StepSafe(maxConcurrent, width, Run(maxConcurrent, width, front), events[|events| - 1]);
    }
  }

  /** Each summed resource, over active tasks and those about to register, is at most the limit times the
      number of acquires that may overlap between check and registration: the limit itself when acquires
      are serial, and never more than the limit times `max_concurrent`. */
  lemma ResourceBound(maxConcurrent: nat, width: nat, events: seq<Event>)
    requires Possible(maxConcurrent, width, events)
    ensures var s := Run(maxConcurrent, width, events);
            && CpuSum(s.active) <= CpuSum(s.active) + CpuSum(s.passed) <= width as real * 100.0
            && MemorySum(s.active) <= MemorySum(s.active) + MemorySum(s.passed) <= width as real * 100.0
            && NetworkSum(s.active) <= NetworkSum(s.active) + NetworkSum(s.passed) <= width as real * 100.0
            && |s.passed| <= maxConcurrent
  {
    RunSafe(maxConcurrent, width, events);
    SumsNonNegative(Run(maxConcurrent, width, events).passed);
  }

  /** A run never has more than `max_concurrent` acquires overlap, so the bound holds with that width. */
  lemma {:induction false} WidthIsAtMostPermits(maxConcurrent: nat, width: nat, events: seq<Event>)
    requires Possible(maxConcurrent, width, events)
    ensures Possible(maxConcurrent, maxConcurrent, events)
    ensures Run(maxConcurrent, maxConcurrent, events) == Run(maxConcurrent, width, events)
  {
    RunSafe(maxConcurrent, width, events);
    if events != [] {
      WidthIsAtMostPermits(maxConcurrent, width, events[..|events| - 1]);
    }
  }

  // ----- The bound is reached -----------------------------------------------------------------------

  const FULL := ActiveTask(0, 0, 0, ResourceUsage(100.0, 100.0, 100.0))

  function Copies(n: nat): seq<ActiveTask> {
    seq(n, _ => FULL)
  }

  lemma {:induction false} SumsOfCopies(n: nat)
    ensures CpuSum(Copies(n)) == MemorySum(Copies(n)) == NetworkSum(Copies(n)) == n as real * 100.0
  {
    if n > 0 {
      SumsOfCopies(n - 1);
      assert Copies(n) == Copies(n - 1) + [FULL];
      SumsAppend(Copies(n - 1), FULL);
    }
  }

  lemma RunAppend(maxConcurrent: nat, width: nat, events: seq<Event>, e: Event)
    requires Possible(maxConcurrent, width, events)
    requires Enabled(maxConcurrent, Run(maxConcurrent, width, events), e)
    requires |Step(Run(maxConcurrent, width, events), e).passed| <= width
    ensures Possible(maxConcurrent, width, events + [e])
    ensures Run(maxConcurrent, width, events + [e]) == Step(Run(maxConcurrent, width, events), e)
  {
    assert (events + [e])[..|events|] == events;
  }

  lemma {:induction false} PassAll(maxConcurrent: nat, n: nat) returns (events: seq<Event>)
    requires n <= maxConcurrent
    ensures Possible(maxConcurrent, maxConcurrent, events)
    ensures Run(maxConcurrent, maxConcurrent, events) == State([], {}, Copies(n), 0)
  {
    if n == 0 {
      events := [];
    } else {
      var before := PassAll(maxConcurrent, n - 1);
      RunAppend(maxConcurrent, maxConcurrent, before, TakePermit(0));
      RunAppend(maxConcurrent, maxConcurrent, before + [TakePermit(0)], Check(0, FULL));
      events := before + [TakePermit(0)] + [Check(0, FULL)];
      assert Copies(n) == Copies(n - 1) + [FULL];
      assert {0} - {0} == {};
      hide Run, Possible;
    }
  }

  lemma {:induction false} RegisterAll(maxConcurrent: nat, n: nat) returns (events: seq<Event>)
    requires n <= maxConcurrent
    ensures Possible(maxConcurrent, maxConcurrent, events)
    ensures Run(maxConcurrent, maxConcurrent, events) == State(Copies(n), {}, Copies(maxConcurrent - n), n)
  {
    if n == 0 {
      events := PassAll(maxConcurrent, maxConcurrent);
    } else {
      var before := RegisterAll(maxConcurrent, n - 1);
      var left := Copies(maxConcurrent - (n - 1));
      RunAppend(maxConcurrent, maxConcurrent, before, Register(0, 0));
      events := before + [Register(0, 0)];
      assert left[..0] + left[1..] == Copies(maxConcurrent - n);
      assert Copies(n) == Copies(n - 1) + [FULL];
      hide Run, Possible;
    }
  }

  /** The bound is exact: all permit holders can check before any registers, and then the sums reach the
      limit times `max_concurrent`. */
  lemma BoundIsReached(maxConcurrent: nat) returns (events: seq<Event>)
    ensures Possible(maxConcurrent, maxConcurrent, events)
    ensures var active := Run(maxConcurrent, maxConcurrent, events).active;
            CpuSum(active) == MemorySum(active) == NetworkSum(active) == maxConcurrent as real * 100.0
  {
    events := RegisterAll(maxConcurrent, maxConcurrent);
    SumsOfCopies(maxConcurrent);
  }

  /** The active sums keep within the limit that every acquire checks, on all runs. */
  ghost predicate LimitKept(maxConcurrent: nat) {
    forall events :: Possible(maxConcurrent, maxConcurrent, events) ==>
      var active := Run(maxConcurrent, maxConcurrent, events).active;
      CpuSum(active) <= 100.0 && MemorySum(active) <= 100.0 && NetworkSum(active) <= 100.0
  }

  /** So the limit is a limit exactly when there is at most one permit. */
  lemma LimitKeptIffOnePermit(maxConcurrent: nat)
    ensures LimitKept(maxConcurrent) <==> maxConcurrent <= 1
  {
    if maxConcurrent <= 1 {
      forall events | Possible(maxConcurrent, maxConcurrent, events)
        ensures var active := Run(maxConcurrent, maxConcurrent, events).active;
                CpuSum(active) <= 100.0 && MemorySum(active) <= 100.0 && NetworkSum(active) <= 100.0
      {
        ResourceBound(maxConcurrent, maxConcurrent, events);
      }
    } else {
      var events := BoundIsReached(maxConcurrent);
      assert CpuSum(Run(maxConcurrent, maxConcurrent, events).active) > 100.0;
    }
  }
}
