/** Why a transaction has the status it has: over every interleaving of the pipeline, each status written
    follows an event that justifies it. */
module StatusCauses {
  import opened Wrappers
  import opened BinaryHeap
  import opened Scheduler
  import opened Pipeline
  import PipelineSafety
  import Tracker = TransactionTracker

  /** What an event can establish. */
  datatype Fact =
    | Accepted(hash: Hash, id: Id)
    | Rejected(id: Id)
    | Starved(id: Id)
    | Shallow(hash: Hash, id: Id)
    | Deep(hash: Hash, id: Id)
    | Reverted(hash: Hash, id: Id)
    | Withdrawn(id: Id)
    | Executed(id: Id)

  /** The executor has the id's task in its hands and is about to send it. */
  predicate Sending(p: Pipe, id: Id) {
    p.exec.Holding? && p.exec.task.id == id
  }

  /** The tracker is about to look at this hash of the id. */
  predicate Checking(p: Pipe, hash: Hash, id: Id) {
    p.track.Scanning? && hash in p.track.rest && p.track.rest[hash] == id
  }

  predicate IsCheck(e: Event, hash: Hash) {
    e.Tracking? && e.t.Check? && e.t.hash == hash && Tracker.BlocksKnown(e.t.answer)
  }

  /** A cancellation finds the id in the list it is about to search. */
  predicate Withdraws(p: Pipe, e: Event, id: Id) {
    && e.Gate?
    && ((e.g.CancelQueued? && e.g.id == id && HasTask(p.sched.queue, id))
        || (e.g.CancelProcessing? && e.g.actor in p.cancels && p.cancels[e.g.actor].id == id
            && HasTask(p.sched.processing, id)))
  }

  predicate Establishes(config: Config, p: Pipe, e: Event, f: Fact) {
    match f
    case Accepted(hash, id) => e == Executor(SendOk(hash)) && Sending(p, id)
    case Rejected(id) => e == Executor(SendError) && Sending(p, id)
    case Starved(id) => e == Executor(NoWallet) && Sending(p, id)
    case Shallow(hash, id) =>
      && IsCheck(e, hash) && p.track.Scanning? && hash in p.tracked && p.tracked[hash] == id
      && Tracker.Succeeded(e.t.answer) && !Tracker.Deep(e.t.answer, config.confirmationBlocks)
    case Deep(hash, id) =>
      && IsCheck(e, hash) && Checking(p, hash, id)
      && Tracker.Succeeded(e.t.answer) && Tracker.Deep(e.t.answer, config.confirmationBlocks)
    case Reverted(hash, id) => IsCheck(e, hash) && Checking(p, hash, id) && !Tracker.Succeeded(e.t.answer)
    case Withdrawn(id) => Withdraws(p, e, id)
    case Executed(id) => e == Executor(PopTask) && Popped(p.sched).0.Some? && Popped(p.sched).0.value.id == id
  }

  /** Event `i` of the run establishes the fact. */
  ghost predicate HappensAt(config: Config, events: seq<Event>, i: nat, f: Fact) {
    && i < |events|
    && Reached(config, events[..i]).Some?
    && Establishes(config, Reached(config, events[..i]).value, events[i], f)
  }

  ghost predicate Happened(config: Config, events: seq<Event>, f: Fact) {
    exists i: nat :: HappensAt(config, events, i, f)
  }

  /** What justifies a status:
      - `Submitted`: the provider accepted the transaction;
      - `Processing` and `Confirmed`: it accepted it under a hash whose receipt had status 1 when checked, in
        a block that was not yet, or already, deep enough;
      - `Failed`: it rejected it, or accepted it under a hash whose receipt lacked status 1 when checked;
      - `Cancelled`: a cancellation found it in one of the queues. */
  ghost predicate Justified(config: Config, events: seq<Event>, w: Write) {
    match w.status
    case Pending => false
    case Submitted => exists hash :: Happened(config, events, Accepted(hash, w.id))
    case Processing =>
      exists hash :: Happened(config, events, Accepted(hash, w.id)) && Happened(config, events, Shallow(hash, w.id))
    case Confirmed =>
      exists hash :: Happened(config, events, Accepted(hash, w.id)) && Happened(config, events, Deep(hash, w.id))
    case Failed =>
      || Happened(config, events, Rejected(w.id))
      || exists hash :: Happened(config, events, Accepted(hash, w.id)) && Happened(config, events, Reverted(hash, w.id))
    case Cancelled => Happened(config, events, Withdrawn(w.id))
  }

  /** What justifies a result in the scheduler: a success that the provider accepted the transaction, a failure
      that it rejected it or that there was no wallet to send it with. */
  ghost predicate Outcome(config: Config, events: seq<Event>, id: Id, success: bool) {
    if success then exists hash :: Happened(config, events, Accepted(hash, id))
    else Happened(config, events, Rejected(id)) || Happened(config, events, Starved(id))
  }

  // ----- The invariant ------------------------------------------------------------------------------

  ghost predicate AllAccepted(config: Config, events: seq<Event>, hashes: map<Hash, Id>) {
    forall h :: h in hashes ==> Happened(config, events, Accepted(h, hashes[h]))
  }

  ghost predicate ExecJustified(config: Config, events: seq<Event>, exec: Exec) {
    match exec
    case Sent(task, hash) => Happened(config, events, Accepted(hash, task.id))
    case Adding(task, hash) => Happened(config, events, Accepted(hash, task.id))
    case SendFailed(task) => Happened(config, events, Rejected(task.id))
    case Reporting(task, success, _) => Outcome(config, events, task.id, success)
    case Clearing(task, success, _) => Outcome(config, events, task.id, success)
    case Retrying(task) => Outcome(config, events, task.id, false)
    case Requeueing(task) => Outcome(config, events, task.id, false)
    case _ => true
  }

  ghost predicate ResultsJustified(config: Config, events: seq<Event>, s: Sched) {
    && (forall id :: id in s.completed ==> Outcome(config, events, id, true))
    && forall id :: id in s.failed ==> Outcome(config, events, id, false)
  }

  ghost predicate TrackJustified(config: Config, events: seq<Event>, track: Track) {
    match track
    case Resting => true
    case Scanning(rest) => AllAccepted(config, events, rest)
    case Settling(hash, id, status, rest) =>
      AllAccepted(config, events, rest) && Justified(config, events, Write(id, status))
    case Forgetting(hash, rest) => AllAccepted(config, events, rest)
  }

  ghost predicate CancelsJustified(config: Config, events: seq<Event>, cancels: map<Actor, Cancel>) {
    forall a :: a in cancels && (cancels[a].Decided? || cancels[a].found) ==>
      Happened(config, events, Withdrawn(cancels[a].id))
  }

  ghost predicate LogJustified(config: Config, events: seq<Event>, log: seq<Write>) {
    forall i :: 0 <= i < |log| ==> Justified(config, events, log[i])
  }

  ghost predicate AllJustified(config: Config, events: seq<Event>, p: Pipe) {
    && ExecJustified(config, events, p.exec)
    && TrackJustified(config, events, p.track)
    && AllAccepted(config, events, p.tracked)
    && CancelsJustified(config, events, p.cancels)
    && LogJustified(config, events, p.log)
    && ResultsJustified(config, events, p.sched)
  }

  // ----- Facts stay ---------------------------------------------------------------------------------

  lemma FactStays(config: Config, events: seq<Event>, e: Event, f: Fact)
    requires Happened(config, events, f)
    ensures Happened(config, events + [e], f)
  {
    hide Reached, Establishes;
    var i: nat :| HappensAt(config, events, i, f);
    assert (events + [e])[..i] == events[..i];
    assert HappensAt(config, events + [e], i, f);
  }

  lemma FactAdded(config: Config, events: seq<Event>, e: Event, f: Fact)
    requires Reached(config, events).Some? && Establishes(config, Reached(config, events).value, e, f)
    ensures Happened(config, events + [e], f)
  {
    hide Reached, Establishes;
    assert (events + [e])[..|events|] == events;
    assert HappensAt(config, events + [e], |events|, f);
  }

  lemma FactsStay(config: Config, events: seq<Event>, e: Event)
    ensures forall f :: Happened(config, events, f) ==> Happened(config, events + [e], f)
  {
    forall f | Happened(config, events, f)
      ensures Happened(config, events + [e], f)
    {
      FactStays(config, events, e, f);
    }
  }

  lemma JustifiedStays(config: Config, events: seq<Event>, e: Event, w: Write)
    requires Justified(config, events, w)
    ensures Justified(config, events + [e], w)
  {
    hide Happened;
    FactsStay(config, events, e);
  }

  lemma OutcomesStay(config: Config, events: seq<Event>, e: Event)
    ensures forall id, ok :: Outcome(config, events, id, ok) ==> Outcome(config, events + [e], id, ok)
  {
    hide Happened;
    FactsStay(config, events, e);
  }

  lemma AllStay(config: Config, events: seq<Event>, e: Event, p: Pipe)
    requires AllJustified(config, events, p)
    ensures AllJustified(config, events + [e], p)
  {
    hide Happened, Justified, Outcome;
    FactsStay(config, events, e);
    OutcomesStay(config, events, e);
    forall w | Justified(config, events, w)
      ensures Justified(config, events + [e], w)
    {
      JustifiedStays(config, events, e, w);
    }
  }

  // ----- Steps --------------------------------------------------------------------------------------

  lemma WroteJustified(config: Config, events: seq<Event>, log: seq<Write>, id: Id, status: Status, ok: bool)
    requires LogJustified(config, events, log) && Justified(config, events, Write(id, status))
    ensures LogJustified(config, events, Wrote(log, id, status, ok))
  {
    hide Justified;
  }

  /** Only reporting changes the results. */
  lemma GateResults(config: Config, p: Pipe, g: GateEvent)
    requires GateEnabled(p, g)
    ensures SameResults(p.sched, GateStep(config, p, g).sched)
  {
    hide Queued, NotQueued, NotProcessing, HasTask;
    OnlyReportsChangeResults(p.sched);
  }

  lemma ExecResults(p: Pipe, e: ExecEvent)
    requires ExecEnabled(p, e) && !e.InsertResult?
    ensures SameResults(p.sched, ExecStep(p, e).sched)
  {
    hide Popped, NotProcessing, TakenBack, Queued, WithResult, Again, Rescheduled;
    OnlyReportsChangeResults(p.sched);
  }

  lemma TrackResults(config: Config, p: Pipe, t: TrackEvent)
    requires TrackEnabled(p, t)
    ensures SameResults(p.sched, TrackStep(config, p, t).sched)
  {
    hide Tracker.Classify;
  }

  lemma GateJustified(config: Config, events: seq<Event>, p: Pipe, g: GateEvent)
    requires Reached(config, events) == Some(p) && GateEnabled(p, g) && AllJustified(config, events + [Gate(g)], p)
    ensures AllJustified(config, events + [Gate(g)], GateStep(config, p, g))
  {
    hide Reached, Happened, Outcome, TrackJustified, ExecJustified, AllAccepted, Queued, NotQueued, NotProcessing;
    var now := events + [Gate(g)];
    GateResults(config, p, g);
    match g
    case CancelQueued(actor, id) =>
      if HasTask(p.sched.queue, id) {
        FactAdded(config, events, Gate(g), Withdrawn(id));
      }
    case CancelProcessing(actor) =>
      if HasTask(p.sched.processing, p.cancels[actor].id) {
        FactAdded(config, events, Gate(g), Withdrawn(p.cancels[actor].id));
      }
    case WriteCancelled(actor, ok) => WroteJustified(config, now, p.log, p.cancels[actor].id, Cancelled, ok);
    case _ =>
  }

  /** The sections that report a result, and retry, pass on what justifies it. */
  lemma ReportJustified(config: Config, events: seq<Event>, p: Pipe, e: ExecEvent)
    requires ExecEnabled(p, e) && AllJustified(config, events, p)
    requires e.InsertResult? || e.LeaveProcessing? || e.TakeBack? || e.Requeue?
    ensures AllJustified(config, events, ExecStep(p, e))
  {
    hide Happened, Outcome, TrackJustified, CancelsJustified, LogJustified, AllAccepted, Queued, NotProcessing;
    if !e.InsertResult? {
      ExecResults(p, e);
    }
  }

  lemma ExecutorJustified(config: Config, events: seq<Event>, p: Pipe, e: ExecEvent)
    requires Reached(config, events) == Some(p) && ExecEnabled(p, e) && AllJustified(config, events + [Executor(e)], p)
    ensures AllJustified(config, events + [Executor(e)], ExecStep(p, e))
  {
    hide Reached, Happened, TrackJustified, CancelsJustified, Queued, Popped, NotProcessing;
    var now := events + [Executor(e)];
    match e
    case NoWallet => FactAdded(config, events, Executor(e), Starved(p.exec.task.id));
    case SendOk(hash) => FactAdded(config, events, Executor(e), Accepted(hash, p.exec.task.id));
    case SendError => FactAdded(config, events, Executor(e), Rejected(p.exec.task.id));
    case WriteSubmitted(ok) => WroteJustified(config, now, p.log, p.exec.task.id, Submitted, ok);
    case WriteFailed(ok) => WroteJustified(config, now, p.log, p.exec.task.id, Status.Failed, ok);
    case PopTask => ExecResults(p, e);
    case Track(_) =>
    case _ => ReportJustified(config, now, p, e);
  }

  lemma CheckJustified(config: Config, events: seq<Event>, p: Pipe, hash: Hash, answer: Tracker.Answer, ok: bool)
    requires Reached(config, events) == Some(p) && TrackEnabled(p, Check(hash, answer, ok))
    requires AllJustified(config, events + [Tracking(Check(hash, answer, ok))], p)
    ensures AllJustified(config, events + [Tracking(Check(hash, answer, ok))],
                         AfterCheckReceipt(config, p, hash, answer, ok))
  {
    hide Reached, Happened, Outcome, ExecJustified, CancelsJustified, Tracker.Classify, LogJustified;
    var e := Tracking(Check(hash, answer, ok));
    var now, id := events + [e], p.track.rest[hash];
    Tracker.ReadExactly(answer, config.confirmationBlocks);
    match Tracker.Classify(answer, config.confirmationBlocks)
    case Processing(_) =>
      if hash in p.tracked {
        FactAdded(config, events, e, Shallow(hash, p.tracked[hash]));
        WroteJustified(config, now, p.log, p.tracked[hash], Status.Processing, ok);
      }
    case Confirmed(_) => FactAdded(config, events, e, Deep(hash, id));
    case Reverted => FactAdded(config, events, e, Reverted(hash, id));
    case _ =>
  }

  lemma TrackerJustified(config: Config, events: seq<Event>, p: Pipe, t: TrackEvent)
    requires Reached(config, events) == Some(p) && TrackEnabled(p, t) && AllJustified(config, events + [Tracking(t)], p)
    ensures AllJustified(config, events + [Tracking(t)], TrackStep(config, p, t))
  {
    hide Reached, Happened, Outcome, ExecJustified, CancelsJustified, AfterCheckReceipt, Justified;
    var now := events + [Tracking(t)];
    TrackResults(config, p, t);
    match t
    case Check(hash, answer, ok) => CheckJustified(config, events, p, hash, answer, ok);
    case WriteSettled(ok) => WroteJustified(config, now, p.log, p.track.id, p.track.status, ok);
    case _ =>
  }

  lemma {:induction false} RunJustified(config: Config, events: seq<Event>)
    requires Reached(config, events).Some?
    ensures AllJustified(config, events, Reached(config, events).value)
  {
    if events != [] {
      hide AllJustified, GateStep, ExecStep, TrackStep, GateEnabled, ExecEnabled, TrackEnabled;
      var n := |events| - 1;
      var front, e := events[..n], events[n];
      var p := Reached(config, front).value;
      RunJustified(config, front);
      AllStay(config, front, e, p);
      assert front + [e] == events;
      match e
      case Gate(g) => GateJustified(config, front, p, g);
      case Executor(x) => ExecutorJustified(config, front, p, x);
      case Tracking(t) => TrackerJustified(config, front, p, t);
    }
  }

  /** In every reachable state of the pipeline every status written so far is justified by an event that has
      already happened: no transaction is called confirmed unless the provider gave out its hash and a
      receipt of that hash with status 1 was seen deep enough, none is called failed by the tracker unless
      a receipt without status 1 was seen, and none is cancelled unless it was found in a queue. */
  lemma EveryStatusIsJustified(config: Config, events: seq<Event>, i: nat)
    requires Reached(config, events).Some? && i < |Reached(config, events).value.log|
    ensures Justified(config, events, Reached(config, events).value.log[i])
  {
    RunJustified(config, events);
  }

  /** In every reachable state every result that the scheduler holds is the true one. */
  lemma EveryResultIsJustified(config: Config, events: seq<Event>, id: Id)
    requires Reached(config, events).Some?
    ensures id in Reached(config, events).value.sched.completed ==> Outcome(config, events, id, true)
    ensures id in Reached(config, events).value.sched.failed ==> Outcome(config, events, id, false)
  {
    RunJustified(config, events);
  }

  // ----- Execution and withdrawal -------------------------------------------------------------------

  /** The ledger of what was popped and what was cancelled only grows. */
  ghost predicate KeepsRecords(p: Pipe, q: Pipe) {
    (forall id :: id in p.popped ==> id in q.popped) && p.cancelled <= q.cancelled
  }

  lemma GateRecords(config: Config, p: Pipe, g: GateEvent)
    requires GateEnabled(p, g)
    ensures KeepsRecords(p, GateStep(config, p, g))
  {
    hide Queued, NotQueued, NotProcessing, HasTask;
  }

  lemma ExecRecords(p: Pipe, e: ExecEvent)
    requires ExecEnabled(p, e)
    ensures KeepsRecords(p, ExecStep(p, e))
  {
    hide Queued, NotProcessing, TakenBack, WithResult, Popped;
  }

  lemma TrackRecords(config: Config, p: Pipe, t: TrackEvent)
    requires TrackEnabled(p, t)
    ensures KeepsRecords(p, TrackStep(config, p, t))
  {
    hide Tracker.Classify;
  }

  lemma RecordsStay(config: Config, p: Pipe, e: Event)
    requires Enabled(p, e)
    ensures KeepsRecords(p, Step(config, p, e))
  {
    hide KeepsRecords, GateStep, ExecStep, TrackStep;
    match e
    case Gate(g) => GateRecords(config, p, g);
    case Executor(x) => ExecRecords(p, x);
    case Tracking(t) => TrackRecords(config, p, t);
  }

  lemma RecordsGrow(config: Config, p: Pipe, e: Event, id: Id)
    requires Enabled(p, e)
    ensures Establishes(config, p, e, Executed(id)) ==> Step(config, p, e).popped == p.popped + [id]
    ensures Establishes(config, p, e, Withdrawn(id)) ==> id in Step(config, p, e).cancelled
  {
    hide Queued, NotQueued, NotProcessing, TakenBack, WithResult, Popped;
  }

  lemma {:induction false} Recorded(config: Config, events: seq<Event>, i: nat, id: Id)
    requires Reached(config, events).Some?
    ensures HappensAt(config, events, i, Executed(id)) ==> id in Reached(config, events).value.popped
    ensures HappensAt(config, events, i, Withdrawn(id)) ==> id in Reached(config, events).value.cancelled
  {
    hide Establishes, Enabled, Step;
    if i < |events| {
      var n := |events| - 1;
      var p := Reached(config, events[..n]).value;
      if i == n {
        RecordsGrow(config, p, events[n], id);
      } else {
        Recorded(config, events[..n], i, id);
        assert events[..n][..i] == events[..i];
        RecordsStay(config, p, events[n]);
      }
    }
  }

  lemma {:induction false} PrefixReached(config: Config, events: seq<Event>, n: nat)
    requires Reached(config, events).Some? && n <= |events|
    ensures Reached(config, events[..n]).Some?
  {
    if n < |events| {
      PrefixReached(config, events[..|events| - 1], n);
      assert events[..|events| - 1][..n] == events[..n];
    } else {
      assert events[..n] == events;
    }
  }

  /** A pop records the id at the end, and it was not recorded before. */
  lemma PoppedAnew(config: Config, events: seq<Event>, id: Id)
    requires events != [] && Reached(config, events).Some?
    requires HappensAt(config, events, |events| - 1, Executed(id))
    ensures id !in Reached(config, events[..|events| - 1]).value.popped
  {
    hide Establishes, Enabled, Step;
    var p, popped := Reached(config, events[..|events| - 1]).value, Reached(config, events).value.popped;
    RecordsGrow(config, p, events[|events| - 1], id);
    assert popped == p.popped + [id];
    PipelineSafety.CancelledNeverExecuted(config, events);
    forall k | 0 <= k < |p.popped|
      ensures p.popped[k] != id
    {
      assert popped[k] != popped[|popped| - 1];
    }
  }

  /** What the executor pops, it never pops again. */
  lemma PoppedOnce(config: Config, events: seq<Event>, i: nat, j: nat, id: Id)
    requires Reached(config, events).Some? && i < j && HappensAt(config, events, i, Executed(id))
    ensures !HappensAt(config, events, j, Executed(id))
  {
    hide Establishes, Enabled, Step, Reached;
    if j < |events| {
      var before, after := events[..j], events[..j + 1];
      PrefixReached(config, events, j);
      PrefixReached(config, events, j + 1);
      assert before[..i] == events[..i] && after[..j] == before;
      Recorded(config, before, i, id);
      if HappensAt(config, after, j, Executed(id)) {
        PoppedAnew(config, after, id);
      }
    }
  }

  /** Told by the events alone: what the executor pops is never found by a cancellation, before or after, and
      never popped again. */
  lemma ExecutedOnceOrWithdrawn(config: Config, events: seq<Event>, i: nat, j: nat, id: Id)
    requires Reached(config, events).Some? && HappensAt(config, events, i, Executed(id))
    ensures !HappensAt(config, events, j, Withdrawn(id))
    ensures HappensAt(config, events, j, Executed(id)) ==> i == j
  {
    hide Establishes, Enabled, Step, Reached;
    Recorded(config, events, i, id);
    Recorded(config, events, j, id);
    PipelineSafety.CancelledNeverExecuted(config, events);
    if HappensAt(config, events, j, Executed(id)) && i != j {
      PoppedOnce(config, events, if i < j then i else j, if i < j then j else i, id);
    }
  }
}
