/** What the wallet pool guarantees over runs with a strictly advancing clock: fair rotation, and two
    ledgers that agree. */
module Rotation {
  import opened Collections
  import opened Wrappers
  import opened WalletPool

  datatype Op =
    | Add(address: Address)
    | Remove(address: Address)
    | Acquire
    | Release(address: Address, success: bool, gasUsed: nat)

  datatype Timed = Timed(op: Op, at: int)

  /** One operation; `chosen` is the wallet an `Acquire` hands out. */
  ghost predicate Next(before: Pool, t: Timed, chosen: Option<WalletInfo>, after: Pool) {
    match t.op
    case Add(a) => after == Added(before, a, t.at)
    case Remove(a) => after == Removed(before, a)
    case Acquire => IsNext(before, t.at, chosen) && after == AfterAcquire(before, chosen, t.at)
    case Release(a, success, gasUsed) => after == Released(before, a, success, gasUsed, t.at)
  }

  ghost predicate IsRun(ops: seq<Timed>, states: seq<Pool>, chosen: seq<Option<WalletInfo>>) {
    && |states| == |ops| + 1 && |chosen| == |ops|
    && forall i :: 0 <= i < |ops| ==> Next(states[i], ops[i], chosen[i], states[i + 1])
  }

  ghost predicate StrictClock(ops: seq<Timed>, start: int) {
    && (forall i :: 0 <= i < |ops| ==> start < ops[i].at)
    && forall i, j :: 0 <= i < j < |ops| ==> ops[i].at < ops[j].at
  }

  /** Every active address has usage statistics and the other way around, and every address was last used
      at an instant of its own, `now` at the latest. */
  ghost predicate Stamped(active: seq<Address>, usage: Usage, now: int) {
    && Distinct(active)
    && usage.Keys == Members(active)
    && (forall a :: a in usage ==> usage[a].lastUsed <= now)
    && forall a, b :: a in usage && b in usage && a != b ==> usage[a].lastUsed != usage[b].lastUsed
  }

  ghost predicate Known(wallets: seq<WalletInfo>, a: Address) {
    exists k :: 0 <= k < |wallets| && wallets[k].address == a
  }

  /** The pool's lists and its usage map speak of the same addresses. */
  ghost predicate Consistent(pool: Pool, now: int) {
    && Stamped(pool.active, pool.usage, now)
    && forall a :: a in pool.usage ==> Known(pool.wallets, a)
  }

  lemma EmptyPoolConsistent(now: int)
    ensures Consistent(Pool([], [], map[]), now)
  {
  }

  lemma AddedConsistent(pool: Pool, added: Address, t: int, now: int)
    requires Consistent(pool, now) && now < t
    ensures Consistent(Added(pool, added, t), t)
  {
    var after := Added(pool, added, t);
    assert Members(after.active) == Members(pool.active) + {added};
    assert after.wallets[|pool.wallets|].address == added;
    forall a | a in after.usage && a != added
      ensures Known(after.wallets, a)
    {
      var k :| 0 <= k < |pool.wallets| && pool.wallets[k].address == a;
      assert after.wallets[k].address == a;
    }
  }

  lemma {:induction false} DistinctWithout(active: seq<Address>, address: Address)
    requires Distinct(active)
    ensures Distinct(ActiveWithout(active, address))
  {
    if active != [] {
      var rest := ActiveWithout(active[1..], address);
      DistinctWithout(active[1..], address);
      assert active[0] !in active[1..];
      assert forall i :: 0 <= i < |rest| ==> rest[i] in rest;
    }
  }

  lemma KnownWithout(wallets: seq<WalletInfo>, removed: Address, a: Address)
    requires Known(wallets, a) && a != removed
    ensures Known(WalletsWithout(wallets, removed), a)
  {
    var rest := WalletsWithout(wallets, removed);
    var k :| 0 <= k < |wallets| && wallets[k].address == a;
    assert wallets[k] in rest;
    var j :| 0 <= j < |rest| && rest[j] == wallets[k];
  }

  lemma RemovedConsistent(pool: Pool, removed: Address, t: int, now: int)
    requires Consistent(pool, now) && now < t
    ensures Consistent(Removed(pool, removed), t)
  {
    hide WalletsWithout, Known;
    var after := Removed(pool, removed);
    DistinctWithout(pool.active, removed);
    assert Members(after.active) == Members(pool.active) - {removed};
    forall a | a in after.usage
      ensures Known(after.wallets, a)
    {
      KnownWithout(pool.wallets, removed, a);
    }
  }

  lemma ReleasedConsistent(pool: Pool, released: Address, success: bool, gasUsed: nat, t: int, now: int)
    requires Consistent(pool, now) && now < t
    ensures Consistent(Released(pool, released, success, gasUsed, t), t)
  {
    var after := Released(pool, released, success, gasUsed, t);
    assert after.usage.Keys == pool.usage.Keys;
    forall a | a in after.usage
      ensures Known(after.wallets, a)
    {
      var k :| 0 <= k < |pool.wallets| && pool.wallets[k].address == a;
      assert after.wallets[k].address == a;
    }
  }

  lemma AcquiredConsistent(pool: Pool, chosen: Option<WalletInfo>, t: int, now: int)
    requires Consistent(pool, now) && now < t
    ensures Consistent(AfterAcquire(pool, chosen, t), t)
  {
    assert AfterAcquire(pool, chosen, t).usage.Keys == pool.usage.Keys;
  }

  lemma ConsistentNext(before: Pool, t: Timed, chosen: Option<WalletInfo>, after: Pool, now: int)
    requires Consistent(before, now) && now < t.at && Next(before, t, chosen, after)
    ensures Consistent(after, t.at)
  {
    hide Consistent, Added, Removed, Released, AfterAcquire, IsNext;
    match t.op
    case Add(a) => AddedConsistent(before, a, t.at, now);
    case Remove(a) => RemovedConsistent(before, a, t.at, now);
    case Release(a, success, gasUsed) => ReleasedConsistent(before, a, success, gasUsed, t.at, now);
    case Acquire => AcquiredConsistent(before, chosen, t.at, now);
  }

  // ----- Fairness ---------------------------------------------------------------------------------

  /** The wallets that have been idle for longer than `w`. */
  ghost function Older(usage: Usage, w: Address): set<Address>
    requires w in usage
  {
    set a | a in usage && usage[a].lastUsed < usage[w].lastUsed
  }

  /** In a consistent pool the next wallet is the one that nobody is older than. */
  lemma NextIsOldest(pool: Pool, now: int, t: int, chosen: Option<WalletInfo>)
    requires Consistent(pool, now) && now < t && IsNext(pool, t, chosen) && pool.active != []
    ensures chosen.Some? && chosen.value.address in pool.usage
    ensures forall a :: a in pool.usage ==> pool.usage[chosen.value.address].lastUsed <= pool.usage[a].lastUsed
  {
    var address :| Selects(pool.usage, pool.active, t, address) &&
      var k := Find(pool.wallets, address);
      chosen == if k < |pool.wallets| then Some(pool.wallets[k]) else None;
    OldestOfAll(pool, now, t, address);
    assert Known(pool.wallets, address);
  }

  lemma OldestOfAll(pool: Pool, now: int, t: int, address: Address)
    requires Consistent(pool, now) && now < t && pool.active != []
    requires Selects(pool.usage, pool.active, t, address)
    ensures address in pool.usage
    ensures forall a :: a in pool.usage ==> pool.usage[address].lastUsed <= pool.usage[a].lastUsed
  {
    assert pool.active[0] in pool.usage;
    var k: nat :| IsOldest(pool.usage, pool.active, t, k) && address == pool.active[k];
    forall a | a in pool.usage
      ensures pool.usage[address].lastUsed <= pool.usage[a].lastUsed
    {
      assert a in Members(pool.active);
      var i :| 0 <= i < |pool.active| && pool.active[i] == a;
    }
  }

  /** An acquire either takes `w`, which then is the most recently used, or takes a wallet older than `w`,
      which no longer is. */
  lemma AcquireAdvances(pool: Pool, now: int, t: int, chosen: Option<WalletInfo>, w: Address)
    requires Consistent(pool, now) && now < t && IsNext(pool, t, chosen) && w in pool.usage
    ensures chosen.Some? && (chosen.value.address == w <==> Older(pool.usage, w) == {})
    ensures var after := AfterAcquire(pool, chosen, t);
            && w in after.usage
            && if chosen.value.address == w then Older(after.usage, w) == pool.usage.Keys - {w}
               else chosen.value.address in Older(pool.usage, w)
                    && Older(after.usage, w) == Older(pool.usage, w) - {chosen.value.address}
  {
    assert w in Members(pool.active);
    NextIsOldest(pool, now, t, chosen);
    hide IsNext;
    var x := chosen.value.address;
    if x != w {
      assert pool.usage[x].lastUsed != pool.usage[w].lastUsed;
      assert x in Older(pool.usage, w);
    }
  }

  /** The operation concerns the wallet itself. */
  predicate Touches(op: Op, w: Address) {
    !op.Acquire? && op.address == w
  }

  /** Adding, removing or releasing other wallets never puts anyone in front of `w`. */
  lemma OthersDoNotOvertake(before: Pool, t: Timed, chosen: Option<WalletInfo>, after: Pool, now: int, w: Address)
    requires Consistent(before, now) && now < t.at && w in before.usage
    requires !t.op.Acquire? && !Touches(t.op, w) && Next(before, t, chosen, after)
    ensures w in after.usage && Older(after.usage, w) <= Older(before.usage, w)
  {
    hide Find, WalletsWithout, ActiveWithout, Known;
  }

  function Acquires(ops: seq<Timed>): nat {
    if ops == [] then 0 else Acquires(ops[..|ops| - 1]) + if ops[|ops| - 1].op.Acquire? then 1 else 0
  }

  ghost predicate Chosen(ops: seq<Timed>, chosen: seq<Option<WalletInfo>>, i: nat, w: Address)
    requires |chosen| == |ops|
  {
    i < |ops| && ops[i].op.Acquire? && chosen[i].Some? && chosen[i].value.address == w
  }

  lemma {:induction false} RunConsistent(ops: seq<Timed>, states: seq<Pool>, chosen: seq<Option<WalletInfo>>,
                                         start: int, i: nat)
    requires IsRun(ops, states, chosen) && StrictClock(ops, start) && Consistent(states[0], start) && i <= |ops|
    ensures Consistent(states[i], if i == 0 then start else ops[i - 1].at)
  {
    if i > 0 {
      RunConsistent(ops, states, chosen, start, i - 1);
      assert Next(states[i - 1], ops[i - 1], chosen[i - 1], states[i]);
      ConsistentNext(states[i - 1], ops[i - 1], chosen[i - 1], states[i], if i == 1 then start else ops[i - 2].at);
    }
  }

  /** Every pool that adding, removing, acquiring and releasing make of the empty one is consistent, so that
      what follows holds of every reachable pool. */
  lemma ReachableConsistent(ops: seq<Timed>, states: seq<Pool>, chosen: seq<Option<WalletInfo>>, start: int, i: nat)
    requires IsRun(ops, states, chosen) && StrictClock(ops, start) && i <= |ops|
    requires states[0] == Pool([], [], map[])
    ensures Consistent(states[i], if i == 0 then start else ops[i - 1].at)
  {
    EmptyPoolConsistent(start);
    RunConsistent(ops, states, chosen, start, i);
  }

  /** One operation that passes `w` over and leaves it alone; an acquire uses up one of the wallets older
      than it. */
  lemma PassedOverOnce(before: Pool, t: Timed, chosen: Option<WalletInfo>, after: Pool, now: int, w: Address)
    requires Consistent(before, now) && now < t.at && w in before.usage && Next(before, t, chosen, after)
    requires !Touches(t.op, w) && !(t.op.Acquire? && chosen.Some? && chosen.value.address == w)
    ensures w in after.usage
    ensures |Older(after.usage, w)| + (if t.op.Acquire? then 1 else 0) <= |Older(before.usage, w)|
  {
    if t.op.Acquire? {
      AcquireAdvances(before, now, t.at, chosen, w);
    } else {
      OthersDoNotOvertake(before, t, chosen, after, now, w);
      SubsetSize(Older(after.usage, w), Older(before.usage, w));
    }
  }

  /** As long as `w` is passed over and left alone, every acquire uses up one of the wallets older than it. */
  lemma {:induction false} PassedOver(ops: seq<Timed>, states: seq<Pool>, chosen: seq<Option<WalletInfo>>,
                                      start: int, w: Address, i: nat)
    requires IsRun(ops, states, chosen) && StrictClock(ops, start) && Consistent(states[0], start) && i <= |ops|
    requires w in states[0].usage && forall j :: 0 <= j < i ==> !Touches(ops[j].op, w)
    requires forall j :: 0 <= j < i ==> !Chosen(ops, chosen, j, w)
    ensures w in states[i].usage
    ensures |Older(states[i].usage, w)| + Acquires(ops[..i]) <= |Older(states[0].usage, w)|
  {
    if i > 0 {
      hide Consistent, Older;
      PassedOver(ops, states, chosen, start, w, i - 1);
      RunConsistent(ops, states, chosen, start, i - 1);
      assert ops[..i][..i - 1] == ops[..i - 1];
      assert Next(states[i - 1], ops[i - 1], chosen[i - 1], states[i]);
      assert !Chosen(ops, chosen, i - 1, w);
      hide Next;
      PassedOverOnce(states[i - 1], ops[i - 1], chosen[i - 1], states[i], if i == 1 then start else ops[i - 2].at, w);
    }
  }

  lemma {:induction false} MembersSize(active: seq<Address>)
    requires Distinct(active)
    ensures |Members(active)| == |active|
  {
    if active != [] {
      var n := |active| - 1;
      MembersSize(active[..n]);
      assert active == active[..n] + [active[n]];
      assert Members(active) == Members(active[..n]) + {active[n]};
      assert active[n] !in Members(active[..n]);
    }
  }

  lemma OlderSize(pool: Pool, now: int, w: Address)
    requires Consistent(pool, now) && w in pool.usage
    ensures |Older(pool.usage, w)| < |pool.usage| == |pool.active|
  {
    MembersSize(pool.active);
    var older := Older(pool.usage, w);
    assert |older + {w}| == |older| + 1;
    SubsetSize(older + {w}, pool.usage.Keys);
  }

  /** Fairness: whatever is added, removed or released meanwhile, an active wallet that is itself left
      alone is handed out by the time there have been as many acquires as there were active wallets. */
  lemma EveryWalletGetsItsTurn(ops: seq<Timed>, states: seq<Pool>, chosen: seq<Option<WalletInfo>>, start: int,
                               w: Address)
    requires IsRun(ops, states, chosen) && StrictClock(ops, start) && Consistent(states[0], start)
    requires w in states[0].usage && forall j :: 0 <= j < |ops| ==> !Touches(ops[j].op, w)
    requires Acquires(ops) >= |states[0].active|
    ensures exists i :: 0 <= i < |ops| && Chosen(ops, chosen, i, w)
  {
    if forall i :: 0 <= i < |ops| ==> !Chosen(ops, chosen, i, w) {
      PassedOver(ops, states, chosen, start, w, |ops|);
      assert ops[..|ops|] == ops;
      OlderSize(states[0], start, w);
      assert false;
    }
  }

  // ----- Round robin ------------------------------------------------------------------------------

  lemma AtLeastOnce(d: nat, n: nat)
    requires d > 0
    ensures d * n >= n
  {
    assert d * n == (d - 1) * n + n;
  }

  lemma ModOf(q: int, n: nat, x: nat)
    requires x < n
    ensures (q * n + x) % n == x
  {
    var m := q * n + x;
    var q', x' := m / n, m % n;
    assert m == q' * n + x';
    assert (q' - q) * n == x - x';
    hide *;
    if q' > q {
      AtLeastOnce(q' - q, n);
    } else if q' < q {
      AtLeastOnce(q - q', n);
    }
  }

  /** The place in a circle of `n` after `i` steps forward from place `r`; place zero is the front. */
  function Place(r: nat, i: nat, n: nat): int
    requires n > 0
  {
    (r - i) % n
  }

  lemma PlaceSteps(r: nat, i: nat, n: nat)
    requires n > 0
    ensures r < n ==> Place(r, 0, n) == r
    ensures Place(r, i + 1, n) == if Place(r, i, n) == 0 then n - 1 else Place(r, i, n) - 1
  {
    if r < n {
      ModOf(0, n, r);
    }
    var q, x := (r - i) / n, (r - i) % n;
    assert r - i == q * n + x;
    if x == 0 {
      assert r - (i + 1) == (q - 1) * n + (n - 1);
      ModOf(q - 1, n, n - 1);
    } else {
      ModOf(q, n, x - 1);
    }
  }

  /** One acquire moves `w` one place forward, or from the front to the end. */
  lemma PositionAdvances(pool: Pool, now: int, t: int, chosen: Option<WalletInfo>, w: Address)
    requires Consistent(pool, now) && now < t && IsNext(pool, t, chosen) && w in pool.usage
    ensures var after := AfterAcquire(pool, chosen, t);
            && w in after.usage && |after.usage| == |pool.usage|
            && |Older(after.usage, w)| ==
               if Older(pool.usage, w) == {} then |pool.usage| - 1 else |Older(pool.usage, w)| - 1
  {
    hide Consistent, IsNext;
    AcquireAdvances(pool, now, t, chosen, w);
    assert AfterAcquire(pool, chosen, t).usage.Keys == pool.usage.Keys;
    hide Older;
  }

  /** The number of wallets older than `w` is its place in the circle of all wallets after `i` acquires. */
  ghost predicate AtPlace(first: Pool, pool: Pool, w: Address, i: nat) {
    && w in first.usage && w in pool.usage && |pool.usage| == |first.usage| > 0
    && |Older(pool.usage, w)| == Place(|Older(first.usage, w)|, i, |first.usage|)
  }

  lemma AtNextPlace(first: Pool, before: Pool, t: Timed, chosen: Option<WalletInfo>, after: Pool, now: int,
                    w: Address, i: nat)
    requires AtPlace(first, before, w, i) && Consistent(before, now) && now < t.at
    requires t.op.Acquire? && Next(before, t, chosen, after)
    ensures AtPlace(first, after, w, i + 1)
  {
    hide Consistent, IsNext, Place, AfterAcquire;
    PositionAdvances(before, now, t.at, chosen, w);
    PlaceSteps(|Older(first.usage, w)|, i, |first.usage|);
    assert Older(before.usage, w) == {} <==> |Older(before.usage, w)| == 0;
  }

  /** While nothing but acquires happens, the number of wallets older than `w` counts down in a circle. */
  lemma {:induction false} RotationPosition(ops: seq<Timed>, states: seq<Pool>, chosen: seq<Option<WalletInfo>>,
                                            start: int, w: Address, i: nat)
    requires IsRun(ops, states, chosen) && StrictClock(ops, start) && Consistent(states[0], start) && i <= |ops|
    requires w in states[0].usage && forall j :: 0 <= j < |ops| ==> ops[j].op.Acquire?
    ensures AtPlace(states[0], states[i], w, i)
  {
    hide Next, Consistent, Older, Place;
    if i == 0 {
      OlderSize(states[0], start, w);
      PlaceSteps(|Older(states[0].usage, w)|, 0, |states[0].usage|);
    } else {
      RotationPosition(ops, states, chosen, start, w, i - 1);
      RunConsistent(ops, states, chosen, start, i - 1);
      assert Next(states[i - 1], ops[i - 1], chosen[i - 1], states[i]);
      hide AtPlace;
      AtNextPlace(states[0], states[i - 1], ops[i - 1], chosen[i - 1], states[i],
                  if i == 1 then start else ops[i - 2].at, w, i - 1);
    }
  }

  /** Round robin: with nothing but acquires, each of the n active wallets is handed out every n-th time,
      starting at its place in the order of last use, so exactly once in any n consecutive acquires. */
  lemma RoundRobin(ops: seq<Timed>, states: seq<Pool>, chosen: seq<Option<WalletInfo>>, start: int, w: Address, i: nat)
    requires IsRun(ops, states, chosen) && StrictClock(ops, start) && Consistent(states[0], start) && i < |ops|
    requires w in states[0].usage && forall j :: 0 <= j < |ops| ==> ops[j].op.Acquire?
    ensures |states[0].active| > 0
    ensures Chosen(ops, chosen, i, w) <==> Place(|Older(states[0].usage, w)|, i, |states[0].active|) == 0
  {
    OlderSize(states[0], start, w);
    RotationPosition(ops, states, chosen, start, w, i);
    RunConsistent(ops, states, chosen, start, i);
    assert Next(states[i], ops[i], chosen[i], states[i + 1]);
    AcquireAdvances(states[i], if i == 0 then start else ops[i - 1].at, ops[i].at, chosen[i], w);
  }

  lemma PlaceReachesFront(r: nat, k: nat, n: nat)
    requires n > 0
    ensures 0 <= Place(r, k, n) < n && Place(r, k + Place(r, k, n), n) == 0
  {
    var q, x := (r - k) / n, (r - k) % n;
    assert r - (k + x) == q * n + 0;
    ModOf(q, n, 0);
  }

  lemma FrontOnceInCircle(r: nat, i: nat, j: nat, n: nat)
    requires n > 0 && i < j < i + n && Place(r, i, n) == 0
    ensures Place(r, j, n) != 0
  {
    var q := (r - i) / n;
    assert r - j == (q - 1) * n + (n - (j - i)) by {
      assert r - i == q * n;
    }
    ModOf(q - 1, n, n - (j - i));
  }

  /** In any n consecutive of the acquires each of the n active wallets is handed out exactly once. */
  lemma ExactlyOnceInN(ops: seq<Timed>, states: seq<Pool>, chosen: seq<Option<WalletInfo>>, start: int, w: Address,
                       k: nat)
    returns (turn: nat)
    requires IsRun(ops, states, chosen) && StrictClock(ops, start) && Consistent(states[0], start)
    requires w in states[0].usage && forall j :: 0 <= j < |ops| ==> ops[j].op.Acquire?
    requires k + |states[0].active| <= |ops|
    ensures k <= turn < k + |states[0].active|
    ensures forall i :: k <= i < k + |states[0].active| ==> (Chosen(ops, chosen, i, w) <==> i == turn)
  {
    var n, r := |states[0].active|, |Older(states[0].usage, w)|;
    OlderSize(states[0], start, w);
    PlaceReachesFront(r, k, n);
    turn := k + Place(r, k, n);
    forall i | k <= i < k + n
      ensures Chosen(ops, chosen, i, w) <==> i == turn
    {
      RoundRobin(ops, states, chosen, start, w, i);
      if i < turn && Place(r, i, n) == 0 {
        FrontOnceInCircle(r, i, turn, n);
      } else if turn < i {
        FrontOnceInCircle(r, turn, i, n);
      }
    }
  }

  /** `get_next_wallet` alone does not advance the rotation: asked twice, it names the same wallet. */
  lemma AskingTwiceNamesTheSame(pool: Pool, now: int, t: int, later: int, first: Option<WalletInfo>,
                                second: Option<WalletInfo>)
    requires Consistent(pool, now) && now < t <= later
    requires IsNext(pool, t, first) && IsNext(pool, later, second)
    ensures first == second
  {
    if pool.active != [] {
      NextIsOldest(pool, now, t, first);
      NextIsOldest(pool, now, later, second);
    }
  }

  /** Whatever the clock and the statistics, the choice is determined. */
  lemma ChoiceIsDetermined(usage: Usage, addresses: seq<Address>, now: int, first: Address, second: Address)
    requires Selects(usage, addresses, now, first) && Selects(usage, addresses, now, second)
    ensures first == second
  {
    if k: nat :| IsOldest(usage, addresses, now, k) && first == addresses[k] {
      if l: nat :| IsOldest(usage, addresses, now, l) && second == addresses[l] {
        assert k == l;
      }
    }
  }

  /** Of two addresses used at the same instant the one listed later is never chosen. */
  lemma EarlierListedWinsTies(usage: Usage, addresses: seq<Address>, now: int, chosen: Address, i: nat, j: nat)
    requires Distinct(addresses) && Selects(usage, addresses, now, chosen)
    requires i < j < |addresses| && addresses[i] in usage && addresses[j] in usage
    requires usage[addresses[i]].lastUsed == usage[addresses[j]].lastUsed
    ensures chosen != addresses[j]
  {
    if k: nat :| IsOldest(usage, addresses, now, k) && chosen == addresses[k] {
      assert k != j;
    }
  }

  // ----- Ledgers ----------------------------------------------------------------------------------

  /** The counts in the wallet record and in the usage statistics of an address agree. */
  ghost predicate Agree(pool: Pool, a: Address) {
    a in pool.usage ==>
      var k := Find(pool.wallets, a);
      && k < |pool.wallets|
      && pool.usage[a].totalTransactions == pool.wallets[k].totalTransactions
      && pool.usage[a].failedTransactions == pool.wallets[k].failedTransactions
      && pool.usage[a].totalTransactions == pool.usage[a].successfulTransactions + pool.usage[a].failedTransactions
  }

  lemma FindIs(wallets: seq<WalletInfo>, a: Address, k: nat)
    requires k <= |wallets| && (k < |wallets| ==> wallets[k].address == a)
    requires forall i :: 0 <= i < k ==> wallets[i].address != a
    ensures Find(wallets, a) == k
  {
  }

  lemma FindUpdated(wallets: seq<WalletInfo>, k: nat, w: WalletInfo, a: Address)
    requires k < |wallets| && w.address == wallets[k].address
    ensures Find(wallets[k := w], a) == Find(wallets, a)
  {
    FindIs(wallets[k := w], a, Find(wallets, a));
  }

  lemma FindShifted(w: WalletInfo, wallets: seq<WalletInfo>, a: Address)
    ensures Find([w] + wallets, a) == if w.address == a then 0 else 1 + Find(wallets, a)
  {
    assert ([w] + wallets)[1..] == wallets;
  }

  lemma WithoutShifted(w: WalletInfo, wallets: seq<WalletInfo>, removed: Address)
    ensures WalletsWithout([w] + wallets, removed) ==
            if w.address == removed then WalletsWithout(wallets, removed) else [w] + WalletsWithout(wallets, removed)
  {
    assert ([w] + wallets)[1..] == wallets;
    assert [] + WalletsWithout(wallets, removed) == WalletsWithout(wallets, removed);
  }

  lemma {:induction false} FindWithout(wallets: seq<WalletInfo>, removed: Address, a: Address)
    requires a != removed && Find(wallets, a) < |wallets|
    ensures var rest := WalletsWithout(wallets, removed);
            Find(rest, a) < |rest| && rest[Find(rest, a)] == wallets[Find(wallets, a)]
  {
    hide Find, WalletsWithout;
    var w, tail := wallets[0], wallets[1..];
    assert wallets == [w] + tail;
    FindShifted(w, tail, a);
    WithoutShifted(w, tail, removed);
    FindShifted(w, WalletsWithout(tail, removed), a);
    if w.address != a {
      FindWithout(tail, removed, a);
    }
  }

  lemma FindAppended(wallets: seq<WalletInfo>, w: WalletInfo, a: Address)
    ensures Find(wallets, a) < |wallets| || w.address == a ==> Find(wallets + [w], a) == Find(wallets, a)
  {
    if Find(wallets, a) < |wallets| || w.address == a {
      FindIs(wallets + [w], a, Find(wallets, a));
    }
  }

  lemma RemovedAgrees(pool: Pool, removed: Address, a: Address)
    requires Agree(pool, a)
    ensures Agree(Removed(pool, removed), a)
  {
    hide Find, WalletsWithout, ActiveWithout;
    if a != removed && a in pool.usage {
      FindWithout(pool.wallets, removed, a);
    }
  }

  lemma ReleasedAgrees(pool: Pool, released: Address, success: bool, gasUsed: nat, now: int, a: Address)
    requires Agree(pool, a)
    ensures Agree(Released(pool, released, success, gasUsed, now), a)
  {
    hide Find;
    var k := Find(pool.wallets, released);
    if k < |pool.wallets| {
      FindUpdated(pool.wallets, k, pool.wallets[k].Recorded(success, now), a);
    }
  }

  /** Acquiring, releasing and removing wallets keep the two ledgers in agreement. */
  lemma LedgersKeepAgreeing(before: Pool, t: Timed, chosen: Option<WalletInfo>, after: Pool, a: Address)
    requires Next(before, t, chosen, after) && !t.op.Add? && Agree(before, a)
    ensures Agree(after, a)
  {
    match t.op
    case Acquire =>
    case Remove(removed) => RemovedAgrees(before, removed, a);
    case Release(released, success, gasUsed) => ReleasedAgrees(before, released, success, gasUsed, t.at, a);
  }

  /** Adding a wallet keeps the agreement unless its address is in the pool already with transactions to
      its name: the statistics then start over while the first wallet record stays. */
  lemma AddingKeepsAgreementIffNew(before: Pool, added: Address, now: int, a: Address)
    requires forall b :: Agree(before, b)
    requires Find(before.wallets, added) < |before.wallets| ==> added in before.usage
    ensures Agree(Added(before, added, now), a) <==>
            (a == added && added in before.usage ==> before.usage[added].totalTransactions == 0)
  {
    FindAppended(before.wallets, NewWallet(added, now), a);
    assert Agree(before, a);
  }

  // ----- Ledgers over runs --------------------------------------------------------------------------

  ghost predicate AllAgree(pool: Pool) {
    forall a :: Agree(pool, a)
  }

  /** Every wallet record has statistics. */
  ghost predicate AllUsed(pool: Pool) {
    forall w :: w in pool.wallets ==> w.address in pool.usage
  }

  /** The operation adds an address that has transactions to its name. */
  predicate Restarts(pool: Pool, t: Timed) {
    t.op.Add? && t.op.address in pool.usage && pool.usage[t.op.address].totalTransactions != 0
  }

  lemma UsedNext(before: Pool, t: Timed, chosen: Option<WalletInfo>, after: Pool)
    requires Next(before, t, chosen, after) && AllUsed(before)
    ensures AllUsed(after)
  {
    hide Find, ActiveWithout, IsNext;
    if t.op.Release? {
      var k := Find(before.wallets, t.op.address);
      assert k < |before.wallets| ==> before.wallets[k].address in before.usage;
    }
  }

  /** From a pool whose ledgers agree, one operation leaves them in agreement exactly when it does not restart
      the statistics of a wallet that has transactions. */
  lemma AgreeNextIffNoRestart(before: Pool, t: Timed, chosen: Option<WalletInfo>, after: Pool)
    requires Next(before, t, chosen, after) && AllAgree(before) && AllUsed(before)
    ensures AllAgree(after) <==> !Restarts(before, t)
  {
    hide Agree, Find, IsNext, Removed, Released, AfterAcquire;
    if t.op.Add? {
      AddedAgreesIff(before, t.op.address, t.at);
    } else {
      forall a
        ensures Agree(after, a)
      {
        assert Agree(before, a);
        LedgersKeepAgreeing(before, t, chosen, after, a);
      }
    }
  }

  lemma AddedAgreesIff(before: Pool, added: Address, now: int)
    requires AllAgree(before) && AllUsed(before)
    ensures AllAgree(Added(before, added, now)) <==>
            !(added in before.usage && before.usage[added].totalTransactions != 0)
  {
    var k := Find(before.wallets, added);
    assert k < |before.wallets| ==> before.wallets[k] in before.wallets && before.wallets[k].address == added;
    hide Find, Agree;
    var after := Added(before, added, now);
    forall a
      ensures Agree(after, a) <==> (a == added && added in before.usage ==> before.usage[added].totalTransactions == 0)
    {
      AddingKeepsAgreementIffNew(before, added, now, a);
    }
    assert AllAgree(after) ==> Agree(after, added);
  }

  ghost predicate AgreeUpTo(states: seq<Pool>, n: nat)
    requires n < |states|
  {
    forall i :: 0 <= i <= n ==> AllAgree(states[i])
  }

  ghost predicate NoRestartUpTo(ops: seq<Timed>, states: seq<Pool>, n: nat)
    requires n <= |ops| && n < |states|
  {
    forall i :: 0 <= i < n ==> !Restarts(states[i], ops[i])
  }

  /** On every run from the empty pool the two ledgers agree on all addresses exactly as long as no address is
      added that is in the pool with transactions to its name. */
  lemma {:induction false} LedgersAgreeIffNoRestart(ops: seq<Timed>, states: seq<Pool>, chosen: seq<Option<WalletInfo>>,
                                                    n: nat)
    requires IsRun(ops, states, chosen) && states[0] == Pool([], [], map[]) && n <= |ops|
    ensures AllUsed(states[n])
    ensures AgreeUpTo(states, n) <==> NoRestartUpTo(ops, states, n)
  {
    if n == 0 {
      assert AllAgree(states[0]);
    } else {
      LedgersAgreeIffNoRestart(ops, states, chosen, n - 1);
      assert Next(states[n - 1], ops[n - 1], chosen[n - 1], states[n]);
      UsedNext(states[n - 1], ops[n - 1], chosen[n - 1], states[n]);
      hide Next, AllAgree, AllUsed, Restarts;
      if AgreeUpTo(states, n - 1) {
        AgreeNextIffNoRestart(states[n - 1], ops[n - 1], chosen[n - 1], states[n]);
      }
    }
  }
}
