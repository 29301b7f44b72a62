/** How far the queue can outgrow `max_queue_size`: `schedule_task` checks the size under one lock and
    pushes under another, so several submitters can pass the check before any of them pushes. */
module QueueCapacity {
  import opened Wrappers
  import opened BinaryHeap
  import opened Scheduler

  type Submitter = nat

  /** The scheduler, the submitters between check and push, and how often retries have put a task back. */
  datatype State = State(sched: Sched, passed: map<Submitter, Request>, requeues: nat)

  datatype Event =
    | CheckSize(submitter: Submitter, request: Request)
    | PushTask(submitter: Submitter, at: int)
    | PopTask
    | CancelQueued(id: Id)
    | Requeue(task: ScheduledTask)
    | Elsewhere(sched: Sched)

  const INIT := State(Sched([], [], map[], map[]), map[], 0)

  /** Submitters are numbered below `t`; one pushes after it passed the check.  `Elsewhere` stands for all
      sections that leave the queue alone. */
  predicate Enabled(t: nat, s: State, e: Event) {
    match e
    case CheckSize(submitter, _) => submitter < t && submitter !in s.passed
    case PushTask(submitter, _) => submitter in s.passed
    case Elsewhere(sched) => sched.queue == s.sched.queue
    case _ => true
  }

  function Step(max: nat, s: State, e: Event): State
    requires e.PushTask? ==> e.submitter in s.passed
  {
    match e
    case CheckSize(submitter, request) =>
      if |s.sched.queue| >= max then s else s.(passed := s.passed[submitter := request])
    case PushTask(submitter, at) =>
      s.(sched := Queued(s.sched, NewTask(s.passed[submitter], at)), passed := s.passed - {submitter})
    case PopTask => s.(sched := Popped(s.sched).1)
    case CancelQueued(id) => s.(sched := NotQueued(s.sched, id))
    case Requeue(task) => s.(sched := Queued(s.sched, task), requeues := s.requeues + 1)
    case Elsewhere(sched) => s.(sched := sched)
  }

  function Run(max: nat, t: nat, events: seq<Event>): Option<State> {
    if events == [] then Some(INIT) else
      match Run(max, t, events[..|events| - 1])
      case None => None
      case Some(s) => if Enabled(t, s, events[|events| - 1]) then Some(Step(max, s, events[|events| - 1])) else None
  }

  /** Pending tasks and submitters about to push, together, against the capacity. */
  ghost predicate Bounded(max: nat, t: nat, s: State) {
    && (forall i :: i in s.passed ==> i < t)
    && |s.passed| <= t
    && (t > 0 ==> |s.sched.queue| + |s.passed| + 1 <= max + t + s.requeues)
    && (t == 0 ==> |s.sched.queue| <= s.requeues)
  }

  lemma {:induction false} FewSubmitters(passed: set<Submitter>, t: nat)
    requires forall i :: i in passed ==> i < t
    ensures |passed| <= t
  {
    if t == 0 {
      assert passed == {};
    } else {
      FewSubmitters(passed - {t - 1}, t - 1);
      if t - 1 in passed {
        assert |passed - {t - 1}| == |passed| - 1;
      } else {
        assert passed - {t - 1} == passed;
      }
    }
  }

  /** What a step adds to the queue. */
  lemma QueueGrowth(max: nat, t: nat, s: State, e: Event)
    requires Enabled(t, s, e)
    ensures |Step(max, s, e).sched.queue| <= |s.sched.queue| + if e.PushTask? || e.Requeue? then 1 else 0
  {
    hide Push, Pop, Retain;
    match e
    case CheckSize(_, _) =>
    case PushTask(submitter, at) => PushSize(AtMost, s.sched.queue, NewTask(s.passed[submitter], at));
    case PopTask => PopSize(AtMost, s.sched.queue);
    case CancelQueued(id) => RetainSize(AtMost, s.sched.queue, (u: ScheduledTask) => u.id != id);
    case Requeue(task) => PushSize(AtMost, s.sched.queue, task);
    case Elsewhere(_) =>
  }

  /** What a step does to the submitters between check and push. */
  lemma PassedGrowth(max: nat, t: nat, s: State, e: Event)
    requires Enabled(t, s, e) && forall i :: i in s.passed ==> i < t
    ensures var s' := Step(max, s, e);
            && (forall i :: i in s'.passed ==> i < t) && |s'.passed| <= t
            && (if e.CheckSize? && |s.sched.queue| < max then |s'.passed| == |s.passed| + 1
                else if e.PushTask? then |s'.passed| == |s.passed| - 1
                else s'.passed == s.passed)
  {
    hide Queued, Popped, NotQueued;
    var s' := Step(max, s, e);
    if e.CheckSize? && |s.sched.queue| < max {
      assert s'.passed.Keys == s.passed.Keys + {e.submitter};
    } else if e.PushTask? {
      assert s'.passed.Keys == s.passed.Keys - {e.submitter};
    }
    FewSubmitters(s'.passed.Keys, t);
  }

  lemma StepBounded(max: nat, t: nat, s: State, e: Event)
    requires Bounded(max, t, s) && Enabled(t, s, e)
    ensures Bounded(max, t, Step(max, s, e))
  {
    QueueGrowth(max, t, s, e);
    PassedGrowth(max, t, s, e);
    hide Queued, Popped, NotQueued;
  }

  /** With t submitters, in every reachable state pending tasks and pushes under way number at most the
      capacity less one, plus t, plus the retries that have put a task back. */
  lemma {:induction false} QueueBound(max: nat, t: nat, events: seq<Event>)
    requires t > 0 && Run(max, t, events).Some?
    ensures var s := Run(max, t, events).value;
            |s.sched.queue| + |s.passed| <= max - 1 + t + s.requeues
    ensures Bounded(max, t, Run(max, t, events).value)
  {
    if events != [] {
      QueueBound(max, t, events[..|events| - 1]);
      hide Bounded;
      StepBounded(max, t, Run(max, t, events[..|events| - 1]).value, events[|events| - 1]);
    }
    assert Bounded(max, t, Run(max, t, events).value);
  }

  // ----- The bound is reached -----------------------------------------------------------------------

  lemma RunAppend(max: nat, t: nat, events: seq<Event>, e: Event)
    requires Run(max, t, events).Some? && Enabled(t, Run(max, t, events).value, e)
    ensures Run(max, t, events + [e]) == Some(Step(max, Run(max, t, events).value, e))
  {
    assert (events + [e])[..|events|] == events;
  }

  /** A single submitter can fill the queue to any size up to the capacity. */
  lemma {:induction false} Fill(max: nat, t: nat, size: nat) returns (events: seq<Event>)
    requires t > 0 && size <= max
    ensures Run(max, t, events).Some?
    ensures var s := Run(max, t, events).value;
            |s.sched.queue| == size && s.passed == map[] && s.requeues == 0
  {
    if size == 0 {
      events := [];
    } else {
      var before := Fill(max, t, size - 1);
      var request := Request(0, Low);
      RunAppend(max, t, before, CheckSize(0, request));
      var checked := before + [CheckSize(0, request)];
      RunAppend(max, t, checked, PushTask(0, 0));
      events := checked + [PushTask(0, 0)];
      var s := Run(max, t, checked).value;
      PushSize(AtMost, s.sched.queue, NewTask(request, 0));
      hide Push, Run;
      assert s.passed == map[0 := request];
    }
  }

  /** The queue has a size, no retry has happened, and the submitters from `lo` to `hi` are about to push. */
  ghost predicate At(s: State, size: int, lo: nat, hi: nat) {
    && |s.sched.queue| == size && s.requeues == 0
    && forall i :: i in s.passed <==> lo <= i < hi
  }

  /** While there is one place left, every submitter can pass the check. */
  lemma {:induction false} PassAll(max: nat, t: nat, k: nat) returns (events: seq<Event>)
    requires 0 < t && k <= t && max > 0
    ensures Run(max, t, events).Some? && At(Run(max, t, events).value, max - 1, 0, k)
  {
    if k == 0 {
      events := Fill(max, t, max - 1);
    } else {
      var before := PassAll(max, t, k - 1);
      var e := CheckSize(k - 1, Request(k, Low));
      RunAppend(max, t, before, e);
      events := before + [e];
      hide Run;
    }
  }

  lemma PushOneMore(max: nat, s: State, size: int, lo: nat, hi: nat)
    requires At(s, size, lo, hi) && lo < hi
    ensures At(Step(max, s, PushTask(lo, 0)), size + 1, lo + 1, hi)
  {
    hide Push;
    PushSize(AtMost, s.sched.queue, NewTask(s.passed[lo], 0));
  }

  lemma {:induction false} PushAll(max: nat, t: nat, k: nat) returns (events: seq<Event>)
    requires 0 < t && k <= t && max > 0
    ensures Run(max, t, events).Some? && At(Run(max, t, events).value, max - 1 + k, k, t)
  {
    if k == 0 {
      events := PassAll(max, t, t);
    } else {
      var before := PushAll(max, t, k - 1);
      var s := Run(max, t, before).value;
      assert k - 1 in s.passed;
      PushOneMore(max, s, max - 1 + (k - 1), k - 1, t);
      RunAppend(max, t, before, PushTask(k - 1, 0));
      events := before + [PushTask(k - 1, 0)];
      hide Run, Step, At;
    }
  }

  /** The bound is exact: with t submitters the queue can hold t - 1 tasks more than its capacity without
      any retry, so it keeps within its capacity exactly when there is a single submitter. */
  lemma CapacityKeptIffOneSubmitter(max: nat, t: nat)
    requires max > 0 && t > 0
    ensures (forall events :: Run(max, t, events).Some? && Run(max, t, events).value.requeues == 0 ==>
               |Run(max, t, events).value.sched.queue| <= max)
            <==> t == 1
  {
    if t > 1 {
      var events := PushAll(max, t, t);
      assert |Run(max, t, events).value.sched.queue| > max;
    } else {
      forall events | Run(max, t, events).Some? && Run(max, t, events).value.requeues == 0
        ensures |Run(max, t, events).value.sched.queue| <= max
      {
        QueueBound(max, t, events);
      }
    }
  }
}
