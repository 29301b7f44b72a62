/** The tracker of src/queue/tracker.rs as an object: one round over its pending transactions when nothing
    interrupts it.  A round is proved to be a run of the tracker in the pipeline's state machine. */
module TrackerLoop {
  import opened Collections
  import opened Scheduler
  import opened Pipeline
  import Tracker = TransactionTracker

  datatype PendingTransaction = PendingTransaction(transactionId: Id, lastChecked: int, checkCount: nat)

  type Entries = map<Hash, PendingTransaction>

  function Ids(pending: Entries): map<Hash, Id> {
    map h | h in pending :: pending[h].transactionId
  }

  /** The status writes that the database has carried out. */
  class Database {
    var log: seq<Write>

    constructor ()
      ensures log == []
    {
      log := [];
    }

    method UpdateTransactionStatus(id: Id, status: Status, stored: bool)
      modifies this
      ensures stored ==> log == old(log) + [Write(id, status)]
      ensures !stored ==> log == old(log)
    {
      if stored {
        log := log + [Write(id, status)];
      }
    }
  }

  /** What the clock, the chain and the database answer during a round, entry by entry: the instants at which
      its age is read and at which it is marked as checked, its receipt, and whether its write is stored. */
  datatype Answers = Answers(checkInterval: nat, confirmationBlocks: nat, now: Hash -> int, marked: Hash -> int,
                             receipt: Hash -> Tracker.Answer, stored: Hash -> bool)
  {
    predicate Due(h: Hash, t: PendingTransaction) {
      now(h) - t.lastChecked >= checkInterval
    }

    function Result(h: Hash): Tracker.CheckResult {
      Tracker.Classify(receipt(h), confirmationBlocks)
    }

    predicate IsSettled(h: Hash) {
      Result(h).Confirmed? || Result(h).Reverted?
    }

    /** The entry is settled and its final status is stored. */
    predicate Leaves(h: Hash, t: PendingTransaction) {
      Due(h, t) && IsSettled(h) && stored(h)
    }

    /** What becomes of an entry that stays. */
    function Kept(h: Hash, t: PendingTransaction): PendingTransaction {
      if Due(h, t) && (Result(h).Processing? || Result(h).Pending?)
      then t.(lastChecked := marked(h), checkCount := t.checkCount + 1)
      else t
    }
  }

  /** The entries when those in `done` have had their turn. */
  function Partway(a: Answers, pending: Entries, done: set<Hash>): Entries {
    map h | h in pending && !(h in done && a.Leaves(h, pending[h])) ::
      if h in done then a.Kept(h, pending[h]) else pending[h]
  }

  function AfterRound(a: Answers, pending: Entries): Entries {
    map h | h in pending && !a.Leaves(h, pending[h]) :: a.Kept(h, pending[h])
  }

  function LoggedOne(a: Answers, h: Hash, t: PendingTransaction, log: seq<Write>): seq<Write> {
    if !a.Due(h, t) then log else
      match a.Result(h)
      case Confirmed(_) => Wrote(log, t.transactionId, Confirmed, a.stored(h))
      case Reverted => Wrote(log, t.transactionId, Status.Failed, a.stored(h))
      case Processing(_) => Wrote(log, t.transactionId, Status.Processing, a.stored(h))
      case _ => log
  }

  /** The writes of a round that takes the entries in this order. */
  function Logged(a: Answers, pending: Entries, order: seq<Hash>, log: seq<Write>): seq<Write>
    requires Members(order) <= pending.Keys
  {
    if order == [] then log else
      var n := |order| - 1;
      assert order[n] in Members(order);
      assert Members(order[..n]) <= Members(order);
      LoggedOne(a, order[n], pending[order[n]], Logged(a, pending, order[..n], log))
  }

  // ----- Counts -------------------------------------------------------------------------------------

  datatype ProcessResult = ProcessResult(processed: nat, confirmed: nat, failed: nat, errors: nat, pendingCount: nat)

  datatype Count = Processed | ConfirmedOnes | FailedOnes | Errors

  /** Whether a due entry adds to a count. */
  predicate AddsTo(a: Answers, count: Count, h: Hash) {
    match count
    case Processed => !a.Result(h).Unknown?
    case ConfirmedOnes => a.Result(h).Confirmed?
    case FailedOnes => a.Result(h).Reverted?
    case Errors => a.Result(h).Unknown? || (a.IsSettled(h) && !a.stored(h))
  }

  function Counted(a: Answers, pending: Entries, done: set<Hash>, count: Count): set<Hash> {
    set h | h in pending && h in done && a.Due(h, pending[h]) && AddsTo(a, count, h)
  }

  lemma CountOneMore(a: Answers, pending: Entries, done: set<Hash>, count: Count, h: Hash)
    requires h in pending && h !in done
    ensures |Counted(a, pending, done + {h}, count)| ==
            |Counted(a, pending, done, count)| + if a.Due(h, pending[h]) && AddsTo(a, count, h) then 1 else 0
  {
    hide AddsTo;
    var before, after := Counted(a, pending, done, count), Counted(a, pending, done + {h}, count);
    if a.Due(h, pending[h]) && AddsTo(a, count, h) {
      assert after == before + {h};
    } else {
      assert after == before;
    }
  }

  ghost predicate Tallied(a: Answers, pending: Entries, done: set<Hash>, processed: nat, confirmed: nat, failed: nat,
                          errors: nat) {
    && processed == |Counted(a, pending, done, Processed)|
    && confirmed == |Counted(a, pending, done, ConfirmedOnes)|
    && failed == |Counted(a, pending, done, FailedOnes)|
    && errors == |Counted(a, pending, done, Errors)|
  }

  /** Each due entry adds to the counts once. */
  lemma TallyOneMore(a: Answers, pending: Entries, done: set<Hash>, h: Hash, processed: nat, confirmed: nat,
                     failed: nat, errors: nat)
    requires h in pending && h !in done && Tallied(a, pending, done, processed, confirmed, failed, errors)
    ensures var due := a.Due(h, pending[h]);
            Tallied(a, pending, done + {h},
                    processed + (if due && AddsTo(a, Processed, h) then 1 else 0),
                    confirmed + (if due && AddsTo(a, ConfirmedOnes, h) then 1 else 0),
                    failed + (if due && AddsTo(a, FailedOnes, h) then 1 else 0),
                    errors + (if due && AddsTo(a, Errors, h) then 1 else 0))
  {
    hide Counted, AddsTo;
    CountOneMore(a, pending, done, Processed, h);
    CountOneMore(a, pending, done, ConfirmedOnes, h);
    CountOneMore(a, pending, done, FailedOnes, h);
    CountOneMore(a, pending, done, Errors, h);
  }

  // ----- The tracker --------------------------------------------------------------------------------

  class TransactionTracker {
    var pending: Entries
    const database: Database
    const checkInterval: nat
    const confirmationBlocks: nat

    constructor (database: Database, checkInterval: nat, confirmationBlocks: nat)
      ensures this.database == database && this.checkInterval == checkInterval
      ensures this.confirmationBlocks == confirmationBlocks && pending == map[]
    {
      this.database, this.checkInterval, this.confirmationBlocks := database, checkInterval, confirmationBlocks;
      pending := map[];
    }

    method AddTransaction(transactionId: Id, hash: Hash, now: int)
      modifies this
      ensures pending == old(pending)[hash := PendingTransaction(transactionId, now, 0)]
    {
      pending := pending[hash := PendingTransaction(transactionId, now, 0)];
    }

    /** The turn of one entry, and what it adds to the counts. */
    method ProcessOne(a: Answers, txHash: Hash, t: PendingTransaction)
      returns (processed: nat, confirmed: nat, failed: nat, errors: nat)
      requires a.checkInterval == checkInterval && a.confirmationBlocks == confirmationBlocks
      requires txHash in pending && pending[txHash] == t
      modifies this, database
      ensures pending ==
              if a.Leaves(txHash, t) then old(pending) - {txHash} else old(pending)[txHash := a.Kept(txHash, t)]
      ensures database.log == LoggedOne(a, txHash, t, old(database.log))
      ensures processed == if a.Due(txHash, t) && AddsTo(a, Processed, txHash) then 1 else 0
      ensures confirmed == if a.Due(txHash, t) && AddsTo(a, ConfirmedOnes, txHash) then 1 else 0
      ensures failed == if a.Due(txHash, t) && AddsTo(a, FailedOnes, txHash) then 1 else 0
      ensures errors == if a.Due(txHash, t) && AddsTo(a, Errors, txHash) then 1 else 0
    {
      hide Tracker.Classify;
      processed, confirmed, failed, errors := 0, 0, 0, 0;
      if a.now(txHash) - t.lastChecked < checkInterval {
        return;
      }
      var stored := a.stored(txHash);
      match Tracker.Classify(a.receipt(txHash), confirmationBlocks) {
        case Confirmed(_) =>
          processed, confirmed := 1, 1;
          database.UpdateTransactionStatus(t.transactionId, Confirmed, stored);
          if !stored {
            errors := 1;
          } else {
            pending := pending - {txHash};
          }
        case Reverted =>
          processed, failed := 1, 1;
          database.UpdateTransactionStatus(t.transactionId, Status.Failed, stored);
          if !stored {
            errors := 1;
          } else {
            pending := pending - {txHash};
          }
        case Processing(_) =>
          processed := 1;
          if txHash in pending {
            Touch(txHash, a.marked(txHash));
            database.UpdateTransactionStatus(pending[txHash].transactionId, Status.Processing, stored);
          }
        case Pending =>
          processed := 1;
          if txHash in pending {
            Touch(txHash, a.marked(txHash));
          }
        case Unknown =>
          errors := 1;
      }
    }

    method Touch(txHash: Hash, now: int)
      requires txHash in pending
      modifies this
      ensures var t := old(pending)[txHash];
              pending == old(pending)[txHash := t.(lastChecked := now, checkCount := t.checkCount + 1)]
    {
      var t := pending[txHash];
      pending := pending[txHash := t.(lastChecked := now, checkCount := t.checkCount + 1)];
    }

    /** One round, over the entries in whatever order the map yields them. */
    method ProcessPendingTransactions(a: Answers) returns (r: ProcessResult)
      requires a.checkInterval == checkInterval && a.confirmationBlocks == confirmationBlocks
      modifies this, database
      ensures pending == AfterRound(a, old(pending))
      ensures exists order: seq<Hash> :: Distinct(order) && Members(order) == old(pending).Keys
                              && database.log == Logged(a, old(pending), order, old(database.log))
      ensures Tallied(a, old(pending), old(pending).Keys, r.processed, r.confirmed, r.failed, r.errors)
      ensures r.pendingCount == |pending|
    {
      hide *;
      r := ProcessResult(0, 0, 0, 0, 0);
      var pendingMap := pending;
      var unseen := pendingMap.Keys;
      ghost var order: seq<Hash> := [];
      RoundBegins(a, pending, database.log);
      while unseen != {}
        invariant unseen == pendingMap.Keys - Members(order) && Members(order) <= pendingMap.Keys && Distinct(order)
        invariant pending == Partway(a, pendingMap, Members(order))
        invariant database.log == Logged(a, pendingMap, order, old(database.log))
        invariant Tallied(a, pendingMap, Members(order), r.processed, r.confirmed, r.failed, r.errors)
        decreases unseen
      {
        var txHash: Hash :| txHash in unseen;
        unseen := unseen - {txHash};
        OneMore(a, pendingMap, order, Members(order), txHash, old(database.log));
        TallyOneMore(a, pendingMap, Members(order), txHash, r.processed, r.confirmed, r.failed, r.errors);
        var processed, confirmed, failed, errors := ProcessOne(a, txHash, pendingMap[txHash]);
        r := ProcessResult(r.processed + processed, r.confirmed + confirmed, r.failed + failed, r.errors + errors, 0);
        order := order + [txHash];
      }
      assert Members(order) == pendingMap.Keys;
      RoundEnds(a, pendingMap);
      r := r.(pendingCount := |pending|);
    }
  }

  lemma RoundBegins(a: Answers, pending: Entries, log: seq<Write>)
    ensures Members<Hash>([]) == {} && Distinct<Hash>([]) && Partway(a, pending, {}) == pending
    ensures Logged(a, pending, [], log) == log && Tallied(a, pending, {}, 0, 0, 0, 0)
  {
  }

  lemma RoundEnds(a: Answers, pending: Entries)
    ensures Partway(a, pending, pending.Keys) == AfterRound(a, pending)
  {
  }

  /** The entry in turn is still as it was when the round began, and what its turn does to the entries and
      to the log. */
  lemma OneMore(a: Answers, pending: Entries, order: seq<Hash>, done: set<Hash>, h: Hash, log: seq<Write>)
    requires h in pending && h !in done && Members(order) == done <= pending.Keys && Distinct(order)
    ensures Members(order + [h]) == done + {h} && Distinct(order + [h])
    ensures h in Partway(a, pending, done) && Partway(a, pending, done)[h] == pending[h]
    ensures Partway(a, pending, done + {h}) ==
            if a.Leaves(h, pending[h]) then Partway(a, pending, done) - {h}
            else Partway(a, pending, done)[h := a.Kept(h, pending[h])]
    ensures Logged(a, pending, order + [h], log) == LoggedOne(a, h, pending[h], Logged(a, pending, order, log))
  {
    assert (order + [h])[..|order|] == order;
    assert forall i :: 0 <= i < |order| ==> order[i] in Members(order);
  }

  // ----- What a round accounts for ------------------------------------------------------------------

  lemma DisjointSizes<T>(whole: set<T>, a: set<T>, b: set<T>)
    requires whole == a + b && a !! b
    ensures |whole| == |a| + |b|
  {
  }

  function Leaving(a: Answers, pending: Entries): set<Hash> {
    set h | h in pending && a.Leaves(h, pending[h])
  }

  /** Settled entries whose write failed: they stay, and are counted both as settled and as errors. */
  function Unsaved(a: Answers, pending: Entries): set<Hash> {
    set h | h in pending && a.Due(h, pending[h]) && a.IsSettled(h) && !a.stored(h)
  }

  function Unanswered(a: Answers, pending: Entries): set<Hash> {
    set h | h in pending && a.Due(h, pending[h]) && a.Result(h).Unknown?
  }

  /** Every settled entry was confirmed or has failed, and either leaves or is unsaved. */
  lemma SettledOnes(a: Answers, pending: Entries)
    ensures var confirmed := Counted(a, pending, pending.Keys, ConfirmedOnes);
            var failed := Counted(a, pending, pending.Keys, FailedOnes);
            && Leaving(a, pending) + Unsaved(a, pending) == confirmed + failed
            && Leaving(a, pending) !! Unsaved(a, pending) && confirmed !! failed
  {
    hide Tracker.Classify;
  }

  lemma SettledSizes(a: Answers, pending: Entries)
    ensures |Leaving(a, pending)| + |Unsaved(a, pending)| ==
            |Counted(a, pending, pending.Keys, ConfirmedOnes)| + |Counted(a, pending, pending.Keys, FailedOnes)|
  {
    hide Leaving, Unsaved, Counted;
    var settled := Leaving(a, pending) + Unsaved(a, pending);
    SettledOnes(a, pending);
    DisjointSizes(settled, Leaving(a, pending), Unsaved(a, pending));
    var confirmed := Counted(a, pending, pending.Keys, ConfirmedOnes);
    DisjointSizes(settled, confirmed, Counted(a, pending, pending.Keys, FailedOnes));
  }

  lemma ErrorSizes(a: Answers, pending: Entries)
    ensures |Counted(a, pending, pending.Keys, Errors)| == |Unanswered(a, pending)| + |Unsaved(a, pending)|
  {
    var errors := Counted(a, pending, pending.Keys, Errors);
    assert errors == Unanswered(a, pending) + Unsaved(a, pending);
    DisjointSizes(errors, Unanswered(a, pending), Unsaved(a, pending));
  }

  lemma LeavingSizes(a: Answers, pending: Entries)
    ensures |pending| == |AfterRound(a, pending)| + |Leaving(a, pending)|
  {
    var after := AfterRound(a, pending);
    assert pending.Keys == after.Keys + Leaving(a, pending);
    DisjointSizes(pending.Keys, after.Keys, Leaving(a, pending));
  }

  /** No entry gets lost: those that leave are the confirmed and failed ones less the settled ones whose
      write failed, and all other errors are checks without an answer. */
  lemma EntriesAccountedFor(a: Answers, pending: Entries, r: ProcessResult)
    requires Tallied(a, pending, pending.Keys, r.processed, r.confirmed, r.failed, r.errors)
    requires r.pendingCount == |AfterRound(a, pending)|
    ensures |pending| + r.errors == r.pendingCount + r.confirmed + r.failed + |Unanswered(a, pending)|
  {
    hide AfterRound, Leaving, Unsaved, Unanswered, Counted;
    SettledSizes(a, pending);
    ErrorSizes(a, pending);
    LeavingSizes(a, pending);
  }

  // ----- When an entry is checked -------------------------------------------------------------------

  /** The chain does not settle the hash yet: it is not mined, or not deep enough. */
  predicate StaysOpen(a: Answers, h: Hash) {
    var answer := a.receipt(h);
    answer.NotMined? || (Tracker.BlocksKnown(answer) && Tracker.Succeeded(answer)
                         && !Tracker.Deep(answer, a.confirmationBlocks))
  }

  /** The chain settles the hash. */
  predicate Settles(a: Answers, h: Hash) {
    var answer := a.receipt(h);
    Tracker.BlocksKnown(answer) && (!Tracker.Succeeded(answer) || Tracker.Deep(answer, a.confirmationBlocks))
  }

  /** The entries before, between and after the rounds. */
  ghost predicate AreRounds(rounds: seq<Answers>, states: seq<Entries>) {
    && |states| == |rounds| + 1
    && forall i :: 0 <= i < |rounds| ==> states[i + 1] == AfterRound(rounds[i], states[i])
  }

  /** When an entry that was first marked at `since` was last marked, read off the clock and the chain: a round
      marks it if the interval has passed since the mark before and the chain leaves it open. */
  function LastMark(rounds: seq<Answers>, n: nat, h: Hash, since: int): int
    requires n <= |rounds|
  {
    if n == 0 then since else
      var a, last := rounds[n - 1], LastMark(rounds, n - 1, h, since);
      if StaysOpen(a, h) && a.now(h) >= last + a.checkInterval then a.marked(h) else last
  }

  /** How many rounds have marked it. */
  function Marks(rounds: seq<Answers>, n: nat, h: Hash, since: int): nat
    requires n <= |rounds|
  {
    if n == 0 then 0 else
      var a, last := rounds[n - 1], LastMark(rounds, n - 1, h, since);
      Marks(rounds, n - 1, h, since) + if StaysOpen(a, h) && a.now(h) >= last + a.checkInterval then 1 else 0
  }

  /** What one round does to an entry and writes for it, told from the clock, the chain and the database alone:
      nothing before the interval has passed; then it is marked if it stays open, and leaves if it is settled
      and the final status is stored. */
  lemma CheckedWhenDue(a: Answers, pending: Entries, h: Hash, log: seq<Write>)
    requires h in pending
    ensures var t, due := pending[h], a.now(h) >= pending[h].lastChecked + a.checkInterval;
            var marked := PendingTransaction(t.transactionId, a.marked(h), t.checkCount + 1);
            && (h in AfterRound(a, pending) <==> !(due && Settles(a, h) && a.stored(h)))
            && (h in AfterRound(a, pending) ==>
                  AfterRound(a, pending)[h] == if due && StaysOpen(a, h) then marked else t)
    ensures var t, due := pending[h], a.now(h) >= pending[h].lastChecked + a.checkInterval;
            var status := if Tracker.Succeeded(a.receipt(h)) then Confirmed else Status.Failed;
            LoggedOne(a, h, t, log) ==
            if due && Settles(a, h) then Wrote(log, t.transactionId, status, a.stored(h))
            else if due && StaysOpen(a, h) && a.receipt(h).Mined?
            then Wrote(log, t.transactionId, Status.Processing, a.stored(h))
            else log
  {
    hide Tracker.Classify;
    Tracker.ReadExactly(a.receipt(h), a.confirmationBlocks);
  }

  /** What a due entry is counted as: settled ones as confirmed or failed by their receipt's status, and as
      errors if their write fails; those without an answer as errors only. */
  lemma CountedAs(a: Answers, h: Hash)
    ensures AddsTo(a, Processed, h) <==> StaysOpen(a, h) || Settles(a, h)
    ensures AddsTo(a, ConfirmedOnes, h) <==> Settles(a, h) && Tracker.Succeeded(a.receipt(h))
    ensures AddsTo(a, FailedOnes, h) <==> Settles(a, h) && !Tracker.Succeeded(a.receipt(h))
    ensures AddsTo(a, Errors, h) <==> if Settles(a, h) then !a.stored(h) else !StaysOpen(a, h)
  {
    hide Tracker.Classify;
    Tracker.ReadExactly(a.receipt(h), a.confirmationBlocks);
  }

  /** Over any number of rounds an entry that is still there says when and how often it was checked. */
  lemma {:induction false} EntryIsHistory(rounds: seq<Answers>, states: seq<Entries>, n: nat, h: Hash)
    requires AreRounds(rounds, states) && n <= |rounds| && h in states[n]
    ensures h in states[0]
    ensures var t := states[0][h];
            states[n][h] == PendingTransaction(t.transactionId, LastMark(rounds, n, h, t.lastChecked),
                                               t.checkCount + Marks(rounds, n, h, t.lastChecked))
  {
    hide StaysOpen, Settles, LoggedOne, AfterRound;
    if n > 0 {
      assert states[n] == AfterRound(rounds[n - 1], states[n - 1]);
      assert h in states[n - 1] by {
        OnlyOldEntries(rounds[n - 1], states[n - 1], h);
      }
      EntryIsHistory(rounds, states, n - 1, h);
      CheckedWhenDue(rounds[n - 1], states[n - 1], h, []);
    }
  }

  lemma OnlyOldEntries(a: Answers, pending: Entries, h: Hash)
    requires h in AfterRound(a, pending)
    ensures h in pending
  {
  }
}
