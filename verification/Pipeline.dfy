/** The transaction pipeline: submitting and cancelling endpoints, one executor loop and one tracker loop,
    interleaved at the granularity of the locks and of the database writes, any of which may fail. */
module Pipeline {
  import opened Wrappers
  import opened Scheduler
  import Tracker = TransactionTracker

  type Hash = nat
  type Actor = nat

  datatype Status = Pending | Processing | Submitted | Confirmed | Failed | Cancelled {
    predicate Terminal() {
      Confirmed? || Failed? || Cancelled?
    }
  }

  /** A status write that the database carried out. */
  datatype Write = Write(id: Id, status: Status)

  /** Where the endpoint `submit_transaction` is, after it has stored the transaction. */
  datatype Submit = Stored(request: Request) | Checked(request: Request)

  /** Where the endpoint `cancel_transaction` is: between the two queues, or about to write. */
  datatype Cancel = HalfWay(id: Id, found: bool) | Decided(id: Id)

  /** Where the executor loop is. */
  datatype Exec =
    | Idle
    | Holding(task: ScheduledTask)
    | Sent(task: ScheduledTask, hash: Hash)
    | Adding(task: ScheduledTask, hash: Hash)
    | SendFailed(task: ScheduledTask)
    | Reporting(task: ScheduledTask, success: bool, last: bool)
    | Clearing(task: ScheduledTask, success: bool, last: bool)
    | Retrying(task: ScheduledTask)
    | Requeueing(task: ScheduledTask)

  /** Where the tracker loop is; `rest` is what is left of the copy of the map it iterates over. */
  datatype Track =
    | Resting
    | Scanning(rest: map<Hash, Id>)
    | Settling(hash: Hash, id: Id, status: Status, rest: map<Hash, Id>)
    | Forgetting(hash: Hash, rest: map<Hash, Id>)

  /** Who may act on an id: a ledger beside the code's own state. */
  datatype Place =
    | Submitting(actor: Actor)
    | Queueing
    | Executing
    | Tracked(hash: Hash)
    | Cancelling(actor: Actor)
    | Over

  datatype Pipe = Pipe(sched: Sched, rows: set<Id>, log: seq<Write>,
                       submits: map<Actor, Submit>, cancels: map<Actor, Cancel>,
                       exec: Exec, track: Track, tracked: map<Hash, Id>, hashes: set<Hash>,
                       place: map<Id, Place>, popped: seq<Id>, cancelled: set<Id>)

  const INIT := Pipe(Sched([], [], map[], map[]), {}, [], map[], map[], Idle, Resting, map[], {}, map[], [], {})

  datatype GateEvent =
    | StoreRow(actor: Actor, request: Request)
    | CheckQueue(actor: Actor)
    | PushTask(actor: Actor, at: int)
    | CancelQueued(actor: Actor, id: Id)
    | CancelProcessing(actor: Actor)
    | WriteCancelled(actor: Actor, ok: bool)

  datatype ExecEvent =
    | PopTask
    | NoWallet
    | SendOk(hash: Hash)
    | SendError
    | WriteSubmitted(ok: bool)
    | Track(on: bool)
    | WriteFailed(ok: bool)
    | InsertResult(at: int)
    | LeaveProcessing
    | TakeBack
    | Requeue(at: int)

  datatype TrackEvent =
    | Snapshot
    | Skip(hash: Hash)
    | Check(hash: Hash, answer: Tracker.Answer, ok: bool)
    | WriteSettled(ok: bool)
    | Forget
    | EndScan

  datatype Event = Gate(g: GateEvent) | Executor(e: ExecEvent) | Tracking(t: TrackEvent)

  datatype Config = Config(maxQueueSize: nat, confirmationBlocks: nat)

  function Wrote(log: seq<Write>, id: Id, status: Status, ok: bool): seq<Write> {
    if ok then log + [Write(id, status)] else log
  }

  // ----- The endpoints ------------------------------------------------------------------------------

  predicate GateEnabled(p: Pipe, g: GateEvent) {
    match g
    case StoreRow(actor, request) => actor !in p.submits && request.id !in p.place
    case CheckQueue(actor) => actor in p.submits && p.submits[actor].Stored?
    case PushTask(actor, _) => actor in p.submits && p.submits[actor].Checked?
    case CancelQueued(actor, _) => actor !in p.cancels
    case CancelProcessing(actor) => actor in p.cancels && p.cancels[actor].HalfWay?
    case WriteCancelled(actor, _) => actor in p.cancels && p.cancels[actor].Decided?
  }

  function AfterStore(p: Pipe, actor: Actor, request: Request): Pipe {
    p.(rows := p.rows + {request.id}, submits := p.submits[actor := Stored(request)],
       place := p.place[request.id := Submitting(actor)])
  }

  function AfterCheck(config: Config, p: Pipe, actor: Actor): Pipe
    requires actor in p.submits
  {
    var request := p.submits[actor].request;
    if |p.sched.queue| >= config.maxQueueSize then
      p.(submits := p.submits - {actor}, place := p.place[request.id := Over])
    else p.(submits := p.submits[actor := Checked(request)])
  }

  function AfterPush(p: Pipe, actor: Actor, at: int): Pipe
    requires actor in p.submits
  {
    var request := p.submits[actor].request;
    p.(sched := Queued(p.sched, NewTask(request, at)), submits := p.submits - {actor},
       place := p.place[request.id := Queueing])
  }

  function AfterCancelQueued(p: Pipe, actor: Actor, id: Id): Pipe {
    var found := HasTask(p.sched.queue, id);
    p.(sched := NotQueued(p.sched, id), cancels := p.cancels[actor := HalfWay(id, found)],
       place := if found then p.place[id := Cancelling(actor)] else p.place,
       cancelled := if found then p.cancelled + {id} else p.cancelled)
  }

  function AfterCancelProcessing(p: Pipe, actor: Actor): Pipe
    requires actor in p.cancels && p.cancels[actor].HalfWay?
  {
    var id, found := p.cancels[actor].id, HasTask(p.sched.processing, p.cancels[actor].id);
    p.(sched := NotProcessing(p.sched, id),
       cancels := if p.cancels[actor].found || found then p.cancels[actor := Decided(id)] else p.cancels - {actor},
       place := if found then p.place[id := Cancelling(actor)] else p.place,
       cancelled := if found then p.cancelled + {id} else p.cancelled)
  }

  function AfterWriteCancelled(p: Pipe, actor: Actor, ok: bool): Pipe
    requires actor in p.cancels
  {
    var id := p.cancels[actor].id;
    p.(log := Wrote(p.log, id, Cancelled, ok), cancels := p.cancels - {actor}, place := p.place[id := Over])
  }

  function GateStep(config: Config, p: Pipe, g: GateEvent): Pipe
    requires GateEnabled(p, g)
  {
    match g
    case StoreRow(actor, request) => AfterStore(p, actor, request)
    case CheckQueue(actor) => AfterCheck(config, p, actor)
    case PushTask(actor, at) => AfterPush(p, actor, at)
    case CancelQueued(actor, id) => AfterCancelQueued(p, actor, id)
    case CancelProcessing(actor) => AfterCancelProcessing(p, actor)
    case WriteCancelled(actor, ok) => AfterWriteCancelled(p, actor, ok)
  }

  // ----- The executor loop --------------------------------------------------------------------------

  predicate ExecEnabled(p: Pipe, e: ExecEvent) {
    match e
    case PopTask => p.exec.Idle?
    case NoWallet => p.exec.Holding?
    case SendOk(hash) => p.exec.Holding? && hash !in p.hashes
    case SendError => p.exec.Holding?
    case WriteSubmitted(_) => p.exec.Sent?
    case Track(_) => p.exec.Adding?
    case WriteFailed(_) => p.exec.SendFailed?
    case InsertResult(_) => p.exec.Reporting?
    case LeaveProcessing => p.exec.Clearing?
    case TakeBack => p.exec.Retrying?
    case Requeue(_) => p.exec.Requeueing?
  }

  function AfterPop(p: Pipe): Pipe {
    var (top, sched) := Popped(p.sched);
    match top
    case None => p
    case Some(task) =>
      p.(sched := sched, exec := Holding(task), place := p.place[task.id := Executing], popped := p.popped + [task.id])
  }

  /** After reporting a failure the loop retries if the task has retries left. */
  function AfterLeaving(p: Pipe): Pipe
    requires p.exec.Clearing?
  {
    var task := p.exec.task;
    p.(sched := NotProcessing(p.sched, task.id),
       exec := if !p.exec.success && !p.exec.last && task.retryCount < task.maxRetries then Retrying(task) else Idle)
  }

  function AfterTakeBack(p: Pipe): Pipe
    requires p.exec.Retrying?
  {
    var (found, sched) := TakenBack(p.sched, p.exec.task.id);
    p.(sched := sched, exec := if found.Some? then Requeueing(found.value) else Idle)
  }

  function AfterRequeue(p: Pipe, at: int): Pipe
    requires p.exec.Requeueing?
  {
    var again := Again(p.exec.task);
    if again.retryCount <= again.maxRetries then p.(sched := Queued(p.sched, Rescheduled(again, at)), exec := Idle)
    else p.(exec := Reporting(again, false, true))
  }

  function ExecStep(p: Pipe, e: ExecEvent): Pipe
    requires ExecEnabled(p, e)
  {
    match e
    case PopTask => AfterPop(p)
    case NoWallet => p.(exec := Reporting(p.exec.task, false, false), place := p.place[p.exec.task.id := Over])
    case SendOk(hash) => p.(exec := Sent(p.exec.task, hash), hashes := p.hashes + {hash})
    case SendError => p.(exec := SendFailed(p.exec.task))
    case WriteSubmitted(ok) =>
      p.(log := Wrote(p.log, p.exec.task.id, Submitted, ok), exec := Adding(p.exec.task, p.exec.hash))
    case Track(on) =>
      p.(tracked := if on then p.tracked[p.exec.hash := p.exec.task.id] else p.tracked,
         place := p.place[p.exec.task.id := if on then Tracked(p.exec.hash) else Over],
         exec := Reporting(p.exec.task, true, false))
    case WriteFailed(ok) =>
      p.(log := Wrote(p.log, p.exec.task.id, Status.Failed, ok), place := p.place[p.exec.task.id := Over],
         exec := Reporting(p.exec.task, false, false))
    case InsertResult(at) =>
      p.(sched := WithResult(p.sched, p.exec.task.id, p.exec.success, at),
         exec := Clearing(p.exec.task, p.exec.success, p.exec.last))
    case LeaveProcessing => AfterLeaving(p)
    case TakeBack => AfterTakeBack(p)
    case Requeue(at) => AfterRequeue(p, at)
  }

  // ----- The tracker loop ---------------------------------------------------------------------------

  predicate TrackEnabled(p: Pipe, t: TrackEvent) {
    match t
    case Snapshot => p.track.Resting?
    case Skip(hash) => p.track.Scanning? && hash in p.track.rest
    case Check(hash, _, _) => p.track.Scanning? && hash in p.track.rest
    case WriteSettled(_) => p.track.Settling?
    case Forget => p.track.Forgetting?
    case EndScan => p.track.Scanning? && p.track.rest == map[]
  }

  function AfterCheckReceipt(config: Config, p: Pipe, hash: Hash, answer: Tracker.Answer, ok: bool): Pipe
    requires p.track.Scanning? && hash in p.track.rest
  {
    var id, rest := p.track.rest[hash], p.track.rest - {hash};
    match Tracker.Classify(answer, config.confirmationBlocks)
    case Unknown => p.(track := Scanning(rest))
    case Pending => p.(track := Scanning(rest))
    case Processing(_) =>
      p.(track := Scanning(rest),
         log := if hash in p.tracked then Wrote(p.log, p.tracked[hash], Status.Processing, ok) else p.log)
    case Confirmed(_) => p.(track := Settling(hash, id, Confirmed, rest))
    case Reverted => p.(track := Settling(hash, id, Status.Failed, rest))
  }

  function TrackStep(config: Config, p: Pipe, t: TrackEvent): Pipe
    requires TrackEnabled(p, t)
  {
    match t
    case Snapshot => p.(track := Scanning(p.tracked))
    case Skip(hash) => p.(track := Scanning(p.track.rest - {hash}))
    case Check(hash, answer, ok) => AfterCheckReceipt(config, p, hash, answer, ok)
    case WriteSettled(ok) =>
      if ok then
        p.(log := Wrote(p.log, p.track.id, p.track.status, true), place := p.place[p.track.id := Over],
           track := Forgetting(p.track.hash, p.track.rest))
      else p.(track := Scanning(p.track.rest))
    case Forget => p.(tracked := p.tracked - {p.track.hash}, track := Scanning(p.track.rest))
    case EndScan => p.(track := Resting)
  }

  predicate Enabled(p: Pipe, e: Event) {
    match e
    case Gate(g) => GateEnabled(p, g)
    case Executor(e) => ExecEnabled(p, e)
    case Tracking(t) => TrackEnabled(p, t)
  }

  function Step(config: Config, p: Pipe, e: Event): Pipe
    requires Enabled(p, e)
  {
    match e
    case Gate(g) => GateStep(config, p, g)
    case Executor(e) => ExecStep(p, e)
    case Tracking(t) => TrackStep(config, p, t)
  }

  /** The state after the events, if each is possible when it is due. */
  function Reached(config: Config, events: seq<Event>): Option<Pipe> {
    if events == [] then Some(INIT) else
      match Reached(config, events[..|events| - 1])
      case None => None
      case Some(p) =>
        if Enabled(p, events[|events| - 1]) then Some(Step(config, p, events[|events| - 1])) else None
  }
}
