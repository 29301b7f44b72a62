/** What the wallet pool's two ledgers say about the past, read off the operations of a run alone, and which
    wallet is therefore next. */
module WalletHistory {
  import opened Collections
  import opened Wrappers
  import opened WalletPool
  import opened Rotation

  /** The usage statistics, which adding an address again starts anew and acquiring a wallet stamps, and the
      wallet's record, which neither touches. */
  datatype Ledger = Statistics | Record

  datatype Tally = Tally(succeeded: nat, failed: nat, gas: nat) {
    function Plus(success: bool, gasUsed: nat): Tally {
      if success then Tally(succeeded + 1, failed, gas + gasUsed) else Tally(succeeded, failed + 1, gas + gasUsed)
    }

    /** The statistics and the record that hold these counts. */
    function Usage(a: Address, lastUsed: int): UsageStats {
      var total := succeeded + failed;
      UsageStats(a, total, succeeded, failed, lastUsed, if total == 0 then 0 else gas / total, gas)
    }

    function Info(a: Address, lastUsed: int): WalletInfo {
      var total := succeeded + failed;
      WalletInfo(a, true, lastUsed, if total == 0 then 1.0 else succeeded as real / total as real, total, failed)
    }
  }

  /** The address was added and not removed since. */
  predicate InPool(ops: seq<Timed>, n: nat, a: Address)
    requires n <= |ops|
  {
    && n > 0
    && match ops[n - 1].op
       case Add(b) => b == a || InPool(ops, n - 1, a)
       case Remove(b) => b != a && InPool(ops, n - 1, a)
       case Acquire => InPool(ops, n - 1, a)
       case Release(_, _, _) => InPool(ops, n - 1, a)
  }

  /** Adding the address here begins its entry in the ledger. */
  predicate Begins(ledger: Ledger, ops: seq<Timed>, n: nat, a: Address)
    requires n < |ops|
  {
    ops[n].op == Add(a) && (ledger.Statistics? || !InPool(ops, n, a))
  }

  /** The transactions released for the address since its entry began. */
  function Tallied(ledger: Ledger, ops: seq<Timed>, n: nat, a: Address): Tally
    requires n <= |ops|
  {
    if n == 0 || Begins(ledger, ops, n - 1, a) then Tally(0, 0, 0) else
      var before := Tallied(ledger, ops, n - 1, a);
      match ops[n - 1].op
      case Release(b, success, gasUsed) =>
        if b == a then before.Plus(success, gasUsed) else before
      case _ => before
  }

  /** When the address was last added, released or, for the statistics, acquired. */
  function LastUse(ledger: Ledger, ops: seq<Timed>, chosen: seq<Option<WalletInfo>>, n: nat, a: Address): int
    requires n <= |ops| == |chosen|
  {
    if n == 0 then 0 else
      var op, at := ops[n - 1].op, ops[n - 1].at;
      if Begins(ledger, ops, n - 1, a) || (op.Release? && op.address == a)
         || (ledger.Statistics? && op.Acquire? && chosen[n - 1].Some? && chosen[n - 1].value.address == a)
      then at
      else LastUse(ledger, ops, chosen, n - 1, a)
  }

  /** A release adds to the counts of both ledgers. */
  lemma ReleaseTallied(t: Tally, a: Address, lastUsed: int, success: bool, gasUsed: nat, now: int)
    ensures t.Usage(a, lastUsed).Released(success, gasUsed, now) == t.Plus(success, gasUsed).Usage(a, now)
    ensures t.Info(a, lastUsed).Recorded(success, now) == t.Plus(success, gasUsed).Info(a, now)
  {
  }

  lemma ReleaseOf(ledger: Ledger, ops: seq<Timed>, chosen: seq<Option<WalletInfo>>, n: nat, a: Address)
    requires n < |ops| == |chosen|
    ensures ops[n].op.Release? ==>
              var t, lastUsed, r := Tallied(ledger, ops, n, a), LastUse(ledger, ops, chosen, n, a), ops[n].op;
              && t.Usage(a, lastUsed).Released(r.success, r.gasUsed, ops[n].at)
                 == t.Plus(r.success, r.gasUsed).Usage(a, ops[n].at)
              && t.Info(a, lastUsed).Recorded(r.success, ops[n].at) == t.Plus(r.success, r.gasUsed).Info(a, ops[n].at)
  {
    if ops[n].op.Release? {
      ReleaseTallied(Tallied(ledger, ops, n, a), a, LastUse(ledger, ops, chosen, n, a), ops[n].op.success,
                     ops[n].op.gasUsed, ops[n].at);
    }
  }

  // ----- The statistics -----------------------------------------------------------------------------

  ghost predicate StatisticsFit(ops: seq<Timed>, chosen: seq<Option<WalletInfo>>, n: nat, a: Address, usage: Usage)
    requires n <= |ops| == |chosen|
  {
    && (a in usage <==> InPool(ops, n, a))
    && (a in usage ==>
          usage[a] == Tallied(Statistics, ops, n, a).Usage(a, LastUse(Statistics, ops, chosen, n, a)))
  }

  /** What one operation does to the statistics of an address. */
  lemma StatisticsAfter(before: Pool, t: Timed, chosen: Option<WalletInfo>, after: Pool, a: Address)
    requires Next(before, t, chosen, after)
    ensures a in after.usage <==> t.op == Add(a) || (a in before.usage && t.op != Remove(a))
    ensures a in after.usage ==>
              after.usage[a] ==
              match t.op
              case Add(b) => if b == a then UsageStats(a, 0, 0, 0, t.at, 0, 0) else before.usage[a]
              case Remove(_) => before.usage[a]
              case Acquire =>
                if chosen.Some? && chosen.value.address == a then before.usage[a].(lastUsed := t.at)
                else before.usage[a]
              case Release(b, success, gasUsed) =>
                if b == a then before.usage[a].Released(success, gasUsed, t.at) else before.usage[a]
  {
    hide IsNext, Find, WalletsWithout, ActiveWithout;
  }

  /** On every run from the empty pool, whatever the clock, exactly the added addresses have statistics, and
      these are the counts, the gas and the last use of the operations since. */
  lemma {:induction false} StatisticsAreHistory(ops: seq<Timed>, states: seq<Pool>, chosen: seq<Option<WalletInfo>>,
                                                n: nat, a: Address)
    requires IsRun(ops, states, chosen) && states[0] == Pool([], [], map[]) && n <= |ops|
    ensures StatisticsFit(ops, chosen, n, a, states[n].usage)
  {
    if n > 0 {
      hide Next, Tally.Usage, Tally.Plus, UsageStats.Released;
      StatisticsAreHistory(ops, states, chosen, n - 1, a);
      assert Next(states[n - 1], ops[n - 1], chosen[n - 1], states[n]);
      ReleaseOf(Statistics, ops, chosen, n - 1, a);
      StatisticsAfter(states[n - 1], ops[n - 1], chosen[n - 1], states[n], a);
    }
  }

  // ----- The records --------------------------------------------------------------------------------

  ghost predicate RecordFits(ops: seq<Timed>, chosen: seq<Option<WalletInfo>>, n: nat, a: Address,
                             wallets: seq<WalletInfo>)
    requires n <= |ops| == |chosen|
  {
    var k := Find(wallets, a);
    && (k < |wallets| <==> InPool(ops, n, a))
    && (k < |wallets| ==> wallets[k] == Tallied(Record, ops, n, a).Info(a, LastUse(Record, ops, chosen, n, a)))
  }

  lemma RemovedFind(wallets: seq<WalletInfo>, removed: Address, a: Address)
    ensures var rest := WalletsWithout(wallets, removed);
            Find(rest, a) < |rest| <==> a != removed && Find(wallets, a) < |wallets|
  {
    var rest := WalletsWithout(wallets, removed);
    if Find(rest, a) < |rest| {
      assert rest[Find(rest, a)] in rest;
    } else if a != removed && Find(wallets, a) < |wallets| {
      FindWithout(wallets, removed, a);
    }
  }

  /** What one operation does to the first record of an address. */
  lemma RecordAfter(before: Pool, t: Timed, chosen: Option<WalletInfo>, after: Pool, a: Address)
    requires Next(before, t, chosen, after)
    ensures var k, k' := Find(before.wallets, a), Find(after.wallets, a);
            && (k' < |after.wallets| <==> t.op == Add(a) || (k < |before.wallets| && t.op != Remove(a)))
            && (k' < |after.wallets| ==>
                  after.wallets[k'] ==
                  if k == |before.wallets| then NewWallet(a, t.at)
                  else if t.op.Release? && t.op.address == a then before.wallets[k].Recorded(t.op.success, t.at)
                  else before.wallets[k])
  {
    hide Find, WalletsWithout, ActiveWithout, IsNext;
    var k := Find(before.wallets, a);
    match t.op
    case Acquire =>
    case Add(b) =>
      FindAppended(before.wallets, NewWallet(b, t.at), a);
      if k == |before.wallets| && b != a {
        FindIs(after.wallets, a, |after.wallets|);
      }
    case Remove(b) =>
      RemovedFind(before.wallets, b, a);
      if a != b && k < |before.wallets| {
        FindWithout(before.wallets, b, a);
      }
    case Release(b, success, gasUsed) =>
      var j := Find(before.wallets, b);
      if j < |before.wallets| {
        FindUpdated(before.wallets, j, before.wallets[j].Recorded(success, t.at), a);
      }
  }

  /** On every run from the empty pool, whatever the clock, exactly the added addresses have a record, and the
      first one holds the counts, the success rate and the last use of the releases since. */
  lemma {:induction false} RecordsAreHistory(ops: seq<Timed>, states: seq<Pool>, chosen: seq<Option<WalletInfo>>,
                                             n: nat, a: Address)
    requires IsRun(ops, states, chosen) && states[0] == Pool([], [], map[]) && n <= |ops|
    ensures RecordFits(ops, chosen, n, a, states[n].wallets)
  {
    if n > 0 {
      hide Find, Next, Tally.Info, Tally.Plus, WalletInfo.Recorded;
      RecordsAreHistory(ops, states, chosen, n - 1, a);
      assert Next(states[n - 1], ops[n - 1], chosen[n - 1], states[n]);
      ReleaseOf(Record, ops, chosen, n - 1, a);
      RecordAfter(states[n - 1], ops[n - 1], chosen[n - 1], states[n], a);
    }
  }

  // ----- Who is next --------------------------------------------------------------------------------

  /** With a strictly advancing clock an acquire hands out the wallet whose last use, by adding, acquiring or
      releasing, lies furthest back, with its record as it stands; it fails exactly when no wallet is in the
      pool. */
  lemma EarliestUsedIsChosen(ops: seq<Timed>, states: seq<Pool>, chosen: seq<Option<WalletInfo>>, start: int, i: nat,
                             a: Address)
    requires IsRun(ops, states, chosen) && states[0] == Pool([], [], map[]) && StrictClock(ops, start)
    requires i < |ops| && ops[i].op.Acquire?
    ensures InPool(ops, i, a) ==> chosen[i].Some?
    ensures InPool(ops, i, a) && a != chosen[i].value.address ==>
              LastUse(Statistics, ops, chosen, i, chosen[i].value.address) < LastUse(Statistics, ops, chosen, i, a)
    ensures chosen[i].Some? ==>
              var k := Find(states[i].wallets, chosen[i].value.address);
              && InPool(ops, i, chosen[i].value.address)
              && k < |states[i].wallets| && chosen[i].value == states[i].wallets[k]
  {
    hide Find;
    var now := if i == 0 then start else ops[i - 1].at;
    ReachableConsistent(ops, states, chosen, start, i);
    StatisticsAreHistory(ops, states, chosen, i, a);
    assert Next(states[i], ops[i], chosen[i], states[i + 1]);
    if InPool(ops, i, a) {
      assert a in Members(states[i].active);
      NextIsOldest(states[i], now, ops[i].at, chosen[i]);
    }
    if chosen[i].Some? {
      StatisticsAreHistory(ops, states, chosen, i, chosen[i].value.address);
      RecordsAreHistory(ops, states, chosen, i, chosen[i].value.address);
    }
  }
}
