/** What the pipeline guarantees over all interleavings: who may write the status of a transaction, and
    that nobody does after it is settled. */
module PipelineSafety {
  import opened Wrappers
  import opened BinaryHeap
  import opened Scheduler
  import opened Pipeline

  // ----- The ledger and the state -------------------------------------------------------------------

  predicate At(place: map<Id, Place>, id: Id, where_: Place) {
    id in place && place[id] == where_
  }

  ghost predicate QueueFits(queue: multiset<ScheduledTask>, place: map<Id, Place>) {
    && (forall t :: t in queue ==> queue[t] == 1 && At(place, t.id, Queueing))
    && forall t, u :: t in queue && u in queue && t.id == u.id ==> t == u
  }

  ghost predicate SubmitsFit(submits: map<Actor, Submit>, place: map<Id, Place>) {
    forall a :: a in submits ==> At(place, submits[a].request.id, Submitting(a))
  }

  ghost predicate CancelsFit(cancels: map<Actor, Cancel>, place: map<Id, Place>) {
    forall a :: a in cancels ==> cancels[a].Decided? || cancels[a].found ==> At(place, cancels[a].id, Cancelling(a))
  }

  function Rest(track: Track): map<Hash, Id> {
    if track.Resting? then map[] else track.rest
  }

  /** While the executor has a task in its hands nobody else may act on it; it never gets to requeue. */
  ghost predicate ExecFits(p: Pipe) {
    && !p.exec.Requeueing?
    && (p.exec.Holding? || p.exec.Sent? || p.exec.Adding? || p.exec.SendFailed? ==>
         At(p.place, p.exec.task.id, Executing))
    && (p.exec.Sent? || p.exec.Adding? ==>
         p.exec.hash in p.hashes && p.exec.hash !in p.tracked && p.exec.hash !in Rest(p.track))
  }

  /** The tracker owns what it tracks, but for the entry it has settled and is about to forget. */
  ghost predicate TrackedFits(tracked: map<Hash, Id>, track: Track, place: map<Id, Place>, hashes: set<Hash>) {
    forall h :: h in tracked ==>
      h in hashes && (At(place, tracked[h], Tracked(h)) || (track.Forgetting? && track.hash == h))
  }

  /** The copy it iterates over is still in the map. */
  ghost predicate TrackFits(tracked: map<Hash, Id>, track: Track) {
    && (forall h :: h in Rest(track) ==> h in tracked && tracked[h] == Rest(track)[h])
    && (track.Settling? ==>
         && track.hash in tracked && tracked[track.hash] == track.id && track.hash !in track.rest
         && (track.status.Confirmed? || track.status.Failed?))
    && (track.Forgetting? ==> track.hash !in track.rest)
  }

  /** Whoever has had a terminal status written is out of everybody's hands. */
  ghost predicate LogFits(log: seq<Write>, place: map<Id, Place>) {
    forall i :: 0 <= i < |log| ==> log[i].id in place && (log[i].status.Terminal() ==> place[log[i].id] == Over)
  }

  /** At most one terminal write per transaction, and no write after it. */
  ghost predicate Settled(log: seq<Write>) {
    forall i, j :: 0 <= i < j < |log| && log[i].id == log[j].id ==> !log[i].status.Terminal()
  }

  predicate MayBePopped(where_: Place) {
    where_.Executing? || where_.Tracked? || where_.Over?
  }

  ghost predicate HistoryFits(p: Pipe) {
    && p.rows == p.place.Keys
    && (forall i :: 0 <= i < |p.popped| ==> p.popped[i] in p.place && MayBePopped(p.place[p.popped[i]]))
    && (forall i, j :: 0 <= i < j < |p.popped| ==> p.popped[i] != p.popped[j])
    && (forall id :: id in p.cancelled ==> id in p.place && (p.place[id].Cancelling? || p.place[id].Over?))
    && forall i :: 0 <= i < |p.popped| ==> p.popped[i] !in p.cancelled
  }

  ghost predicate Inv(p: Pipe) {
    && p.sched.processing == []
    && QueueFits(multiset(p.sched.queue), p.place)
    && SubmitsFit(p.submits, p.place)
    && CancelsFit(p.cancels, p.place)
    && ExecFits(p)
    && TrackedFits(p.tracked, p.track, p.place, p.hashes)
    && TrackFits(p.tracked, p.track)
    && LogFits(p.log, p.place)
    && Settled(p.log)
    && HistoryFits(p)
  }

  // ----- Moving one id ------------------------------------------------------------------------------

  lemma QueueSurvives(queue: multiset<ScheduledTask>, place: map<Id, Place>, id: Id, to: Place)
    requires QueueFits(queue, place) && (id in place ==> !place[id].Queueing?)
    ensures QueueFits(queue, place[id := to])
  {
  }

  lemma QueueLoses(queue: multiset<ScheduledTask>, place: map<Id, Place>, id: Id, rest: multiset<ScheduledTask>,
                   to: Place)
    requires QueueFits(queue, place)
    requires forall u :: rest[u] == if u.id != id then queue[u] else 0
    ensures QueueFits(rest, place[id := to]) && QueueFits(rest, place)
  {
    assert forall u :: u in rest ==> u in queue && u.id != id && rest[u] == queue[u];
  }

  lemma QueueGains(queue: multiset<ScheduledTask>, place: map<Id, Place>, t: ScheduledTask,
                   more: multiset<ScheduledTask>)
    requires QueueFits(queue, place) && more == queue + multiset{t}
    requires t.id in place ==> !place[t.id].Queueing?
    ensures QueueFits(more, place[t.id := Queueing])
  {
    assert forall u :: u in queue ==> u.id != t.id;
    assert forall u :: u in more ==> u == t || u in queue;
  }

  /** Popping takes the only task of its id. */
  lemma PopTakesOne(queue: multiset<ScheduledTask>, place: map<Id, Place>, t: ScheduledTask,
                    rest: multiset<ScheduledTask>)
    requires QueueFits(queue, place) && rest + multiset{t} == queue
    ensures At(place, t.id, Queueing)
    ensures forall u :: rest[u] == if u.id != t.id then queue[u] else 0
  {
    assert t in queue;
    forall u
      ensures rest[u] == if u.id != t.id then queue[u] else 0
    {
      assert (rest + multiset{t})[u] == queue[u];
      if u in queue && u.id == t.id {
        assert u == t;
      }
    }
  }

  lemma QueuedMeansQueueing(queue: seq<ScheduledTask>, place: map<Id, Place>, id: Id)
    requires QueueFits(multiset(queue), place) && HasTask(queue, id)
    ensures At(place, id, Queueing)
  {
    var t :| t in queue && t.id == id;
    assert t in multiset(queue);
  }

  /** A write about an id that is not over keeps the log settled. */
  lemma WriteKeepsSettled(log: seq<Write>, place: map<Id, Place>, id: Id, status: Status, ok: bool, to: Place)
    requires LogFits(log, place) && Settled(log) && id in place && !place[id].Over?
    requires status.Terminal() ==> to.Over?
    ensures LogFits(Wrote(log, id, status, ok), place[id := to]) && Settled(Wrote(log, id, status, ok))
    ensures LogFits(log, place[id := to])
  {
  }

  lemma LogSurvives(log: seq<Write>, place: map<Id, Place>, id: Id, to: Place)
    requires LogFits(log, place) && (id in place ==> !place[id].Over?)
    ensures LogFits(log, place[id := to])
  {
  }

  /** The history speaks of rows, places, popped and cancelled ids only. */
  lemma HistoryAside(p: Pipe, p': Pipe)
    requires p'.rows == p.rows && p'.place == p.place && p'.popped == p.popped && p'.cancelled == p.cancelled
    ensures HistoryFits(p') == HistoryFits(p)
  {
  }

  lemma NothingProcessing(s: Sched, id: Id)
    requires s.processing == []
    ensures NotProcessing(s, id) == s && !HasTask(s.processing, id)
    ensures TakenBack(s, id).0 == None && TakenBack(s, id).1 == s
  {
  }

  // ----- The endpoints ------------------------------------------------------------------------------

  lemma StoreKeeps(p: Pipe, actor: Actor, request: Request)
    requires Inv(p) && actor !in p.submits && request.id !in p.place
    ensures Inv(AfterStore(p, actor, request))
  {
    hide QueueFits, LogFits, Settled, Push;
    QueueSurvives(multiset(p.sched.queue), p.place, request.id, Submitting(actor));
    LogSurvives(p.log, p.place, request.id, Submitting(actor));
  }

  /** A submitter that is done with its id lets go of nothing that others hold. */
  lemma SubmitterLeaves(p: Pipe, actor: Actor, to: Place)
    requires SubmitsFit(p.submits, p.place) && CancelsFit(p.cancels, p.place) && HistoryFits(p)
    requires TrackedFits(p.tracked, p.track, p.place, p.hashes) && actor in p.submits
    ensures var id := p.submits[actor].request.id;
            var place := p.place[id := to];
            && At(p.place, id, Submitting(actor))
            && SubmitsFit(p.submits - {actor}, place) && CancelsFit(p.cancels, place)
            && TrackedFits(p.tracked, p.track, place, p.hashes)
            && HistoryFits(p.(place := place))
  {
  }

  lemma CheckKeeps(config: Config, p: Pipe, actor: Actor)
    requires Inv(p) && actor in p.submits
    ensures Inv(AfterCheck(config, p, actor))
  {
    hide QueueFits, LogFits, Settled, Push, CancelsFit, TrackedFits, TrackFits, HistoryFits;
    var id := p.submits[actor].request.id;
    var p' := AfterCheck(config, p, actor);
    SubmitterLeaves(p, actor, Over);
    HistoryAside(if |p.sched.queue| >= config.maxQueueSize then p.(place := p.place[id := Over]) else p, p');
    QueueSurvives(multiset(p.sched.queue), p.place, id, Over);
    LogSurvives(p.log, p.place, id, Over);
    hide SubmitsFit;
    if |p.sched.queue| < config.maxQueueSize {
      SubmitStays(p, actor, p'.submits);
    }
  }

  /** Passing the check does not change whose hands the id is in. */
  lemma SubmitStays(p: Pipe, actor: Actor, submits: map<Actor, Submit>)
    requires SubmitsFit(p.submits, p.place) && actor in p.submits
    requires submits == p.submits[actor := Checked(p.submits[actor].request)]
    ensures SubmitsFit(submits, p.place)
  {
  }

  lemma PushKeeps(p: Pipe, actor: Actor, at: int)
    requires Inv(p) && actor in p.submits
    ensures Inv(AfterPush(p, actor, at))
  {
    hide QueueFits, LogFits, Settled, Push, SubmitsFit, CancelsFit, TrackedFits, TrackFits, HistoryFits;
    var request := p.submits[actor].request;
    var task, p' := NewTask(request, at), AfterPush(p, actor, at);
    SubmitterLeaves(p, actor, Queueing);
    HistoryAside(p.(place := p'.place), p');
    QueueGains(multiset(p.sched.queue), p.place, task, multiset(p'.sched.queue));
    LogSurvives(p.log, p.place, request.id, Queueing);
  }

  /** Moving a queued id under the hands of a canceller concerns neither the tracker nor the history of pops. */
  lemma TakenFromQueue(p: Pipe, id: Id, actor: Actor)
    requires TrackedFits(p.tracked, p.track, p.place, p.hashes) && HistoryFits(p) && At(p.place, id, Queueing)
    ensures TrackedFits(p.tracked, p.track, p.place[id := Cancelling(actor)], p.hashes)
    ensures HistoryFits(p.(place := p.place[id := Cancelling(actor)], cancelled := p.cancelled + {id}))
  {
  }

  /** What the section leaves alone besides. */
  lemma CancelQueuedAside(p: Pipe, actor: Actor, id: Id)
    requires SubmitsFit(p.submits, p.place) && CancelsFit(p.cancels, p.place) && ExecFits(p) && actor !in p.cancels
    requires HasTask(p.sched.queue, id) ==> At(p.place, id, Queueing)
    ensures var p' := AfterCancelQueued(p, actor, id);
            && SubmitsFit(p'.submits, p'.place) && CancelsFit(p'.cancels, p'.place) && ExecFits(p')
            && p'.sched == p.sched.(queue := p'.sched.queue)
            && forall u :: multiset(p'.sched.queue)[u] == if u.id != id then multiset(p.sched.queue)[u] else 0
  {
    hide Retain, HasTask;
  }

  lemma CancelQueuedKeeps(p: Pipe, actor: Actor, id: Id)
    requires Inv(p) && actor !in p.cancels
    ensures Inv(AfterCancelQueued(p, actor, id))
  {
    hide QueueFits, LogFits, Settled, NotQueued, HasTask, TrackedFits, HistoryFits, SubmitsFit, CancelsFit, ExecFits;
    var p' := AfterCancelQueued(p, actor, id);
    if HasTask(p.sched.queue, id) {
      QueuedMeansQueueing(p.sched.queue, p.place, id);
    }
    CancelQueuedAside(p, actor, id);
    QueueLoses(multiset(p.sched.queue), p.place, id, multiset(p'.sched.queue), Cancelling(actor));
    if HasTask(p.sched.queue, id) {
      LogSurvives(p.log, p.place, id, Cancelling(actor));
      TakenFromQueue(p, id, actor);
      HistoryAside(p.(place := p'.place, cancelled := p'.cancelled), p');
    } else {
      HistoryAside(p, p');
    }
  }

  lemma CancelProcessingKeeps(p: Pipe, actor: Actor)
    requires Inv(p) && actor in p.cancels && p.cancels[actor].HalfWay?
    ensures Inv(AfterCancelProcessing(p, actor))
  {
    NothingProcessing(p.sched, p.cancels[actor].id);
    hide QueueFits, LogFits, Settled, WithoutId, HasTask;
  }

  lemma WriteCancelledKeeps(p: Pipe, actor: Actor, ok: bool)
    requires Inv(p) && actor in p.cancels && p.cancels[actor].Decided?
    ensures Inv(AfterWriteCancelled(p, actor, ok))
  {
    var id := p.cancels[actor].id;
    WriteKeepsSettled(p.log, p.place, id, Cancelled, ok, Over);
    QueueSurvives(multiset(p.sched.queue), p.place, id, Over);
    hide QueueFits, LogFits, Settled;
  }

  lemma GateKeeps(config: Config, p: Pipe, g: GateEvent)
    requires Inv(p) && GateEnabled(p, g)
    ensures Inv(GateStep(config, p, g))
  {
    hide Inv;
    match g
    case StoreRow(actor, request) => StoreKeeps(p, actor, request);
    case CheckQueue(actor) => CheckKeeps(config, p, actor);
    case PushTask(actor, at) => PushKeeps(p, actor, at);
    case CancelQueued(actor, id) => CancelQueuedKeeps(p, actor, id);
    case CancelProcessing(actor) => CancelProcessingKeeps(p, actor);
    case WriteCancelled(actor, ok) => WriteCancelledKeeps(p, actor, ok);
  }

  // ----- The executor loop --------------------------------------------------------------------------

  lemma PopKeeps(p: Pipe)
    requires Inv(p) && p.exec.Idle?
    ensures Inv(AfterPop(p))
  {
    hide QueueFits, LogFits, Settled, Pop;
    var (top, sched) := Popped(p.sched);
    if top.Some? {
      var id := top.value.id;
      var queue, rest := multiset(p.sched.queue), multiset(sched.queue);
      assert rest + multiset{top.value} == queue;
      PopTakesOne(queue, p.place, top.value, rest);
      QueueLoses(queue, p.place, id, rest, Executing);
      LogSurvives(p.log, p.place, id, Executing);
    }
  }

  /** The executor lets go of its task, to nobody or to the tracker, writing a status or not. */
  lemma LetGoKeeps(p: Pipe, status: Status, ok: bool, to: Place)
    requires Inv(p) && (p.exec.Holding? || p.exec.Sent? || p.exec.Adding? || p.exec.SendFailed?)
    requires to.Over? || !status.Terminal()
    requires to.Over? || to.Executing? || (to.Tracked? && p.exec.Adding? && to.hash == p.exec.hash)
    ensures var id := p.exec.task.id;
            var place := p.place[id := to];
            && QueueFits(multiset(p.sched.queue), place) && SubmitsFit(p.submits, place) && CancelsFit(p.cancels, place)
            && TrackedFits(p.tracked, p.track, place, p.hashes)
            && LogFits(Wrote(p.log, id, status, ok), place) && LogFits(p.log, place)
            && Settled(Wrote(p.log, id, status, ok))
            && HistoryFits(p.(place := place))
  {
    hide QueueFits, LogFits, Settled;
    WriteKeepsSettled(p.log, p.place, p.exec.task.id, status, ok, to);
    QueueSurvives(multiset(p.sched.queue), p.place, p.exec.task.id, to);
  }

  lemma SendKeeps(p: Pipe, e: ExecEvent)
    requires Inv(p) && ExecEnabled(p, e) && (e.NoWallet? || e.SendOk? || e.SendError? || e.WriteFailed?)
    ensures Inv(ExecStep(p, e))
  {
    hide QueueFits, SubmitsFit, CancelsFit, LogFits, Settled, HistoryFits;
    if e.NoWallet? {
      LetGoKeeps(p, Status.Pending, false, Over);
    } else if e.WriteFailed? {
      LetGoKeeps(p, Status.Failed, e.ok, Over);
    } else {
      HistoryAside(p, ExecStep(p, e));
    }
    HistoryAside(p.(place := ExecStep(p, e).place), ExecStep(p, e));
  }

  lemma SubmittedKeeps(p: Pipe, ok: bool)
    requires Inv(p) && p.exec.Sent?
    ensures Inv(ExecStep(p, WriteSubmitted(ok)))
  {
    hide QueueFits, SubmitsFit, CancelsFit, LogFits, Settled, HistoryFits;
    LetGoKeeps(p, Submitted, ok, Executing);
    assert p.place[p.exec.task.id := Executing] == p.place;
    HistoryAside(p, ExecStep(p, WriteSubmitted(ok)));
  }

  /** A new entry for the tracker is not among those it is iterating over. */
  lemma EntryAdded(tracked: map<Hash, Id>, track: Track, place: map<Id, Place>, hashes: set<Hash>, hash: Hash, id: Id)
    requires TrackedFits(tracked, track, place, hashes) && TrackFits(tracked, track)
    requires hash in hashes && hash !in tracked && hash !in Rest(track) && At(place, id, Tracked(hash))
    ensures TrackedFits(tracked[hash := id], track, place, hashes) && TrackFits(tracked[hash := id], track)
  {
  }

  lemma HandOverKeeps(p: Pipe, on: bool)
    requires Inv(p) && p.exec.Adding?
    ensures Inv(ExecStep(p, Track(on)))
  {
    hide QueueFits, SubmitsFit, CancelsFit, LogFits, Settled, HistoryFits, TrackedFits, TrackFits, Rest;
    var p' := ExecStep(p, Track(on));
    LetGoKeeps(p, Status.Pending, false, if on then Tracked(p.exec.hash) else Over);
    HistoryAside(p.(place := p'.place), p');
    if on {
      EntryAdded(p.tracked, p.track, p'.place, p.hashes, p.exec.hash, p.exec.task.id);
    }
  }

  /** Nothing is ever in processing, so a retry finds nothing. */
  lemma ReportKeeps(p: Pipe, e: ExecEvent)
    requires Inv(p) && ExecEnabled(p, e) && (e.InsertResult? || e.LeaveProcessing? || e.TakeBack? || e.Requeue?)
    ensures Inv(ExecStep(p, e))
  {
    hide QueueFits, SubmitsFit, CancelsFit, LogFits, Settled, HistoryFits, TrackedFits, TrackFits, WithoutId, TakenBack;
    NothingProcessing(p.sched, if p.exec.Clearing? || p.exec.Retrying? then p.exec.task.id else 0);
    HistoryAside(p, ExecStep(p, e));
  }

  lemma ExecKeeps(p: Pipe, e: ExecEvent)
    requires Inv(p) && ExecEnabled(p, e)
    ensures Inv(ExecStep(p, e))
  {
    hide Inv;
    match e
    case PopTask => PopKeeps(p);
    case WriteSubmitted(ok) => SubmittedKeeps(p, ok);
    case Track(on) => HandOverKeeps(p, on);
    case NoWallet => SendKeeps(p, e);
    case SendOk(_) => SendKeeps(p, e);
    case SendError => SendKeeps(p, e);
    case WriteFailed(_) => SendKeeps(p, e);
    case _ => ReportKeeps(p, e);
  }

  // ----- The tracker loop ---------------------------------------------------------------------------

  /** The tracker's own moves: copying, skipping, forgetting, ending. */
  lemma ScanFits(config: Config, p: Pipe, t: TrackEvent)
    requires TrackedFits(p.tracked, p.track, p.place, p.hashes) && TrackFits(p.tracked, p.track)
    requires TrackEnabled(p, t) && (t.Snapshot? || t.Skip? || t.Forget? || t.EndScan?)
    ensures var p' := TrackStep(config, p, t);
            && TrackedFits(p'.tracked, p'.track, p.place, p.hashes) && TrackFits(p'.tracked, p'.track)
            && (forall h :: h in p'.tracked ==> h in p.tracked)
            && (forall h :: h in Rest(p'.track) ==> h in Rest(p.track) || h in p.tracked)
  {
  }

  lemma ScanKeeps(config: Config, p: Pipe, t: TrackEvent)
    requires Inv(p) && TrackEnabled(p, t) && (t.Snapshot? || t.Skip? || t.Forget? || t.EndScan?)
    ensures Inv(TrackStep(config, p, t))
  {
    hide QueueFits, SubmitsFit, CancelsFit, LogFits, Settled, HistoryFits, TrackedFits, TrackFits, Rest;
    var p' := TrackStep(config, p, t);
    ScanFits(config, p, t);
    HistoryAside(p, p');
  }

  /** Taking an entry out of the copy, to settle it or to leave it for the next round. */
  lemma EntryTaken(p: Pipe, hash: Hash, track: Track)
    requires p.track.Scanning? && hash in p.track.rest && TrackFits(p.tracked, p.track)
    requires TrackedFits(p.tracked, p.track, p.place, p.hashes)
    requires track == Scanning(p.track.rest - {hash})
          || track == Settling(hash, p.track.rest[hash], Confirmed, p.track.rest - {hash})
          || track == Settling(hash, p.track.rest[hash], Status.Failed, p.track.rest - {hash})
    ensures TrackFits(p.tracked, track) && TrackedFits(p.tracked, track, p.place, p.hashes)
    ensures Rest(p.track) == p.track.rest && Rest(track) == p.track.rest - {hash}
    ensures hash in p.tracked && p.tracked[hash] == p.track.rest[hash] && At(p.place, p.tracked[hash], Tracked(hash))
  {
  }

  lemma CheckReceiptKeeps(config: Config, p: Pipe, hash: Hash, answer: Tracker.Answer, ok: bool)
    requires Inv(p) && p.track.Scanning? && hash in p.track.rest
    ensures Inv(AfterCheckReceipt(config, p, hash, answer, ok))
  {
    hide QueueFits, SubmitsFit, CancelsFit, LogFits, Settled, HistoryFits, Tracker.Classify, Wrote;
    hide TrackFits, TrackedFits, Rest;
    var p' := AfterCheckReceipt(config, p, hash, answer, ok);
    EntryTaken(p, hash, p'.track);
    HistoryAside(p, p');
    if Tracker.Classify(answer, config.confirmationBlocks).Processing? {
      var id := p.tracked[hash];
      WriteKeepsSettled(p.log, p.place, id, Status.Processing, ok, Tracked(hash));
      assert p.place[id := Tracked(hash)] == p.place;
    } else {
      assert p'.log == p.log;
    }
  }

  /** The tracker settles the entry in its hands: nobody else holds its id. */
  lemma SettlerLeaves(p: Pipe)
    requires p.track.Settling? && SubmitsFit(p.submits, p.place) && CancelsFit(p.cancels, p.place) && HistoryFits(p)
    requires TrackedFits(p.tracked, p.track, p.place, p.hashes) && TrackFits(p.tracked, p.track)
    ensures var place, track := p.place[p.track.id := Over], Forgetting(p.track.hash, p.track.rest);
            && At(p.place, p.track.id, Tracked(p.track.hash))
            && SubmitsFit(p.submits, place) && CancelsFit(p.cancels, place) && HistoryFits(p.(place := place))
            && TrackedFits(p.tracked, track, place, p.hashes) && TrackFits(p.tracked, track)
  {
  }

  lemma SettlerGivesUp(p: Pipe)
    requires p.track.Settling? && TrackedFits(p.tracked, p.track, p.place, p.hashes) && TrackFits(p.tracked, p.track)
    ensures TrackedFits(p.tracked, Scanning(p.track.rest), p.place, p.hashes)
    ensures TrackFits(p.tracked, Scanning(p.track.rest))
    ensures p.track.status.Terminal()
  {
  }

  lemma WriteSettledKeeps(config: Config, p: Pipe, ok: bool)
    requires Inv(p) && p.track.Settling?
    ensures Inv(TrackStep(config, p, WriteSettled(ok)))
  {
    hide QueueFits, LogFits, Settled, SubmitsFit, CancelsFit, TrackedFits, TrackFits, HistoryFits;
    var p' := TrackStep(config, p, WriteSettled(ok));
    SettlerLeaves(p);
    SettlerGivesUp(p);
    HistoryAside(p.(place := p'.place), p');
    WriteKeepsSettled(p.log, p.place, p.track.id, p.track.status, true, Over);
    QueueSurvives(multiset(p.sched.queue), p.place, p.track.id, Over);
  }

  lemma TrackKeeps(config: Config, p: Pipe, t: TrackEvent)
    requires Inv(p) && TrackEnabled(p, t)
    ensures Inv(TrackStep(config, p, t))
  {
    hide Inv;
    match t
    case Check(hash, answer, ok) => CheckReceiptKeeps(config, p, hash, answer, ok);
    case WriteSettled(ok) => WriteSettledKeeps(config, p, ok);
    case _ => ScanKeeps(config, p, t);
  }

  // ----- Runs ---------------------------------------------------------------------------------------

  lemma {:induction false} RunKeeps(config: Config, events: seq<Event>)
    requires Reached(config, events).Some?
    ensures Inv(Reached(config, events).value)
  {
    if events != [] {
      RunKeeps(config, events[..|events| - 1]);
      var p := Reached(config, events[..|events| - 1]).value;
      hide Inv, GateStep, ExecStep, TrackStep, GateEnabled, ExecEnabled, TrackEnabled;
      match events[|events| - 1]
      case Gate(g) => GateKeeps(config, p, g);
      case Executor(e) => ExecKeeps(p, e);
      case Tracking(t) => TrackKeeps(config, p, t);
    }
  }

  /** Over every interleaving of submissions, cancellations, the executor loop and the tracker loop, with
      database writes failing wherever they like, a transaction gets at most one terminal status, and no
      status write of any kind follows it. */
  lemma AtMostOneTerminalWrite(config: Config, events: seq<Event>, i: nat, j: nat)
    requires Reached(config, events).Some?
    requires i < j < |Reached(config, events).value.log|
    requires Reached(config, events).value.log[i].id == Reached(config, events).value.log[j].id
    ensures !Reached(config, events).value.log[i].status.Terminal()
  {
    RunKeeps(config, events);
  }

  /** Every write is to a row that was stored before. */
  lemma WritesHitRows(config: Config, events: seq<Event>, i: nat)
    requires Reached(config, events).Some? && i < |Reached(config, events).value.log|
    ensures Reached(config, events).value.log[i].id in Reached(config, events).value.rows
  {
    RunKeeps(config, events);
  }

  /** A task whose cancellation found it is never handed to the executor, before or after, and no task is
      handed to it twice: the loop's retries never come to anything. */
  lemma CancelledNeverExecuted(config: Config, events: seq<Event>)
    requires Reached(config, events).Some?
    ensures var p := Reached(config, events).value;
            && (forall id :: id in p.cancelled ==> id !in p.popped)
            && (forall i, j :: 0 <= i < j < |p.popped| ==> p.popped[i] != p.popped[j])
            && !p.exec.Requeueing?
  {
    RunKeeps(config, events);
  }

  /** Once the executor has taken a task, an attempt to cancel it finds nothing in either queue. */
  lemma PoppedCannotBeCancelled(config: Config, events: seq<Event>, id: Id)
    requires Reached(config, events).Some? && id in Reached(config, events).value.popped
    ensures var s := Reached(config, events).value.sched; !HasTask(s.queue, id) && !HasTask(s.processing, id)
  {
    RunKeeps(config, events);
    var p := Reached(config, events).value;
    var i :| 0 <= i < |p.popped| && p.popped[i] == id;
    if HasTask(p.sched.queue, id) {
      QueuedMeansQueueing(p.sched.queue, p.place, id);
      assert false;
    }
  }
}
