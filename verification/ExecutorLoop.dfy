/** The executor of src/queue/executor.rs as an object: one round of its loop when nothing interrupts it.
    A round is proved to be a run of the executor in the pipeline's state machine. */
module ExecutorLoop {
  import opened Wrappers
  import opened BinaryHeap
  import opened Scheduler
  import opened Pipeline
  import Pool = WalletPool
  import opened TrackerLoop

  /** What becomes of an attempt to send: no wallet, an error, or a hash. */
  datatype Attempt = NoneAvailable | Error | Hashed(hash: Hash)

  /** What a round works on besides the wallets. */
  datatype World = World(sched: Sched, log: seq<Write>, tracked: map<Hash, Id>)

  /** What a round does with the entry it popped.  The retry that follows a failure is missing: it finds
      nothing. */
  function AfterAttempt(w: World, task: ScheduledTask, attempt: Attempt, stored: bool, tracking: bool, at: int): World {
    var sched := CompletedTask(w.sched, task.id, attempt.Hashed?, at);
    match attempt
    case NoneAvailable => World(sched, w.log, w.tracked)
    case Error => World(sched, Wrote(w.log, task.id, Status.Failed, stored), w.tracked)
    case Hashed(hash) =>
      World(sched, Wrote(w.log, task.id, Submitted, stored), if tracking then w.tracked[hash := task.id] else w.tracked)
  }

  function AfterNext(w: World, attempt: Attempt, stored: bool, tracking: bool, at: int): World {
    var (top, rest) := Popped(w.sched);
    match top
    case None => w
    case Some(task) => AfterAttempt(w.(sched := rest), task, attempt, stored, tracking, at)
  }

  lemma IdleAfterReport(s: Sched, id: Id, success: bool, at: int)
    ensures TakenBack(CompletedTask(s, id, success, at), id) == (None, CompletedTask(s, id, success, at))
  {
    var done := CompletedTask(s, id, success, at);
    assert forall t :: t in done.processing ==> t in multiset(done.processing) && t.id != id;
  }

  /** Whatever the state, reporting an id takes it out of processing, so a retry after that is idle. */
  lemma RetryAfterReportIsIdle(s: Sched, id: Id, success: bool, now: int, later: int)
    ensures RetriedTask(CompletedTask(s, id, success, now), id, later) == CompletedTask(s, id, success, now)
  {
    IdleAfterReport(s, id, success, now);
  }

  /** Each attempt takes the next wallet and gives it back with its outcome; without a wallet nothing is
      taken. */
  ghost predicate WalletUsed(before: Pool.Pool, attempt: Attempt, now: int, after: Pool.Pool) {
    if attempt.NoneAvailable? then after == before && Pool.IsNext(before, now, None)
    else exists wallet ::
           && Pool.IsNext(before, now, Some(wallet))
           && after == Pool.Released(Pool.AfterAcquire(before, Some(wallet), now), wallet.address, attempt.Hashed?, 0,
                                     now)
  }

  /** One transaction more, without gas, in the `k`-th record and in the statistics of its address. */
  ghost predicate CountsOne(before: Pool.Pool, after: Pool.Pool, k: nat, failed: bool, now: int) {
    && k < |before.wallets| == |after.wallets|
    && (forall j :: 0 <= j < |before.wallets| && j != k ==> after.wallets[j] == before.wallets[j])
    && (var w, w' := before.wallets[k], after.wallets[k];
        && w'.address == w.address && w'.lastUsed == now
        && w'.totalTransactions == w.totalTransactions + 1
        && w'.failedTransactions == w.failedTransactions + if failed then 1 else 0)
    && (var a := before.wallets[k].address;
        a in before.usage ==>
          && a in after.usage
          && var u, u' := before.usage[a], after.usage[a];
             && u'.lastUsed == now && u'.totalGasUsed == u.totalGasUsed
             && u'.totalTransactions == u.totalTransactions + 1
             && u'.failedTransactions == u.failedTransactions + if failed then 1 else 0)
  }

  lemma ReleaseCounts(pool: Pool.Pool, a: Pool.Address, failed: bool, now: int)
    requires Pool.Find(pool.wallets, a) < |pool.wallets|
    ensures CountsOne(pool, Pool.Released(pool, a, !failed, 0, now), Pool.Find(pool.wallets, a), failed, now)
  {
  }

  /** An attempt with a wallet counts as one transaction of it in both ledgers, as a failed one exactly if
      sending failed. */
  lemma AttemptIsCounted(before: Pool.Pool, attempt: Attempt, now: int, after: Pool.Pool) returns (k: nat)
    requires WalletUsed(before, attempt, now, after) && !attempt.NoneAvailable?
    ensures CountsOne(before, after, k, attempt.Error?, now)
  {
    hide Pool.Selects, Pool.Find, Pool.Released;
    var wallet :|
      && Pool.IsNext(before, now, Some(wallet))
      && after == Pool.Released(Pool.AfterAcquire(before, Some(wallet), now), wallet.address, attempt.Hashed?, 0, now);
    k := Pool.Find(before.wallets, wallet.address);
    ReleaseCounts(Pool.AfterAcquire(before, Some(wallet), now), wallet.address, attempt.Error?, now);
  }

  class TaskExecutor {
    const scheduler: TaskScheduler
    const pool: Pool.WalletPool
    const database: Database
    const tracker: TransactionTracker?

    constructor (scheduler: TaskScheduler, pool: Pool.WalletPool, database: Database, tracker: TransactionTracker?)
      ensures this.scheduler == scheduler && this.pool == pool && this.database == database && this.tracker == tracker
    {
      this.scheduler, this.pool, this.database, this.tracker := scheduler, pool, database, tracker;
    }

    ghost function Contents(): World
      reads scheduler, database, tracker
    {
      World(scheduler.Contents(), database.log, if tracker == null then map[] else Ids(tracker.pending))
    }

    /** Executes a task that was popped; `sent` is the outcome of building, signing and sending, and `stored`
        says whether the database carries out the write that follows. */
    method ExecuteTask(task: ScheduledTask, sent: Option<Hash>, stored: bool, now: int)
      returns (attempt: Attempt)
      modifies pool, database, tracker
      ensures attempt.NoneAvailable? || attempt == (if sent.Some? then Hashed(sent.value) else Error)
      ensures WalletUsed(old(pool.Contents()), attempt, now, pool.Contents())
      ensures scheduler.Contents() == old(scheduler.Contents())
      ensures database.log == match attempt
                              case NoneAvailable => old(database.log)
                              case Error => Wrote(old(database.log), task.id, Status.Failed, stored)
                              case Hashed(_) => Wrote(old(database.log), task.id, Submitted, stored)
      ensures tracker != null ==>
                tracker.pending == if attempt.Hashed?
                                   then old(tracker.pending)[attempt.hash := PendingTransaction(task.id, now, 0)]
                                   else old(tracker.pending)
    {
      hide Pool.IsNext, Pool.Released;
      ghost var before := pool.Contents();
      var wallet := pool.AcquireWallet(now);
      if wallet.None? {
        attempt := NoneAvailable;
        return;
      }
      if sent.Some? {
        database.UpdateTransactionStatus(task.id, Submitted, stored);
        if tracker != null {
          tracker.AddTransaction(task.id, sent.value, now);
        }
        pool.ReleaseWallet(wallet.value.address, true, 0, now);
        attempt := Hashed(sent.value);
      } else {
        database.UpdateTransactionStatus(task.id, Status.Failed, stored);
        pool.ReleaseWallet(wallet.value.address, false, 0, now);
        attempt := Error;
      }
      assert Pool.IsNext(before, now, Some(wallet.value));
    }

    /** One round of the loop. */
    method ExecuteNext(sent: Option<Hash>, stored: bool, now: int) returns (attempt: Attempt)
      modifies scheduler, pool, database, tracker
      ensures Contents() == AfterNext(old(Contents()), attempt, stored, tracker != null, now)
      ensures attempt.NoneAvailable? || attempt == (if sent.Some? then Hashed(sent.value) else Error)
      ensures if Popped(old(scheduler.Contents())).0.None? then pool.Contents() == old(pool.Contents())
              else WalletUsed(old(pool.Contents()), attempt, now, pool.Contents())
    {
      hide CompletedTask, RetriedTask, WalletUsed, Pop;
      ghost var before := scheduler.Contents();
      attempt := NoneAvailable;
      var task := scheduler.GetNextTask();
      if task.None? {
        return;
      }
      ghost var popped := scheduler.Contents();
      attempt := ExecuteTask(task.value, sent, stored, now);
      assert scheduler.Contents() == popped;
      var success := attempt.Hashed?;
      scheduler.CompleteTask(task.value.id, success, now);
      if !success && task.value.retryCount < task.value.maxRetries {
        RetryAfterReportIsIdle(popped, task.value.id, success, now, now);
        scheduler.RetryTask(task.value.id, now);
      }
    }
  }
}
