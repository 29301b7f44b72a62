/** The wallet pool of src/wallet/pool.rs with its default strategy: the wallet unused for longest is next.

    Instants are integers.  Deriving an address from a key is not part of this model: wallets are known by
    their addresses. */
module WalletPool {
  import opened Wrappers

  type Address = nat

  datatype WalletInfo = WalletInfo(address: Address, isActive: bool, lastUsed: int, successRate: real,
                                   totalTransactions: nat, failedTransactions: nat)
  {
    function Recorded(success: bool, now: int): WalletInfo {
      var total := totalTransactions + 1;
      var failed := failedTransactions + if success then 0 else 1;
      this.(totalTransactions := total, failedTransactions := failed, lastUsed := now,
            successRate := (total - failed) as real / total as real)
    }
  }

  datatype UsageStats = UsageStats(address: Address, totalTransactions: nat, successfulTransactions: nat,
                                   failedTransactions: nat, lastUsed: int, averageGasUsed: nat, totalGasUsed: nat)
  {
    function Released(success: bool, gasUsed: nat, now: int): UsageStats {
      var total := totalTransactions + 1;
      UsageStats(address, total,
                 successfulTransactions + if success then 1 else 0,
                 failedTransactions + if success then 0 else 1,
                 now, (totalGasUsed + gasUsed) / total, totalGasUsed + gasUsed)
    }
  }

  type Usage = map<Address, UsageStats>

  datatype Pool = Pool(wallets: seq<WalletInfo>, active: seq<Address>, usage: Usage)

  function NewWallet(address: Address, now: int): WalletInfo {
    WalletInfo(address, true, now, 1.0, 0, 0)
  }

  function NewUsage(address: Address, now: int): UsageStats {
    UsageStats(address, 0, 0, 0, now, 0, 0)
  }

  /** The position of the first wallet with the address, or the length of the list. */
  function Find(wallets: seq<WalletInfo>, address: Address): (k: nat)
    ensures k <= |wallets|
    ensures k < |wallets| ==> wallets[k].address == address
    ensures forall i :: 0 <= i < k ==> wallets[i].address != address
  {
    if wallets == [] || wallets[0].address == address then 0 else 1 + Find(wallets[1..], address)
  }

  function WalletsWithout(wallets: seq<WalletInfo>, address: Address): (r: seq<WalletInfo>)
    ensures forall w :: w in r <==> w in wallets && w.address != address
  {
    if wallets == [] then []
    else (if wallets[0].address == address then [] else [wallets[0]]) + WalletsWithout(wallets[1..], address)
  }

  function ActiveWithout(active: seq<Address>, address: Address): (r: seq<Address>)
    ensures forall a :: a in r <==> a in active && a != address
  {
    if active == [] then []
    else (if active[0] == address then [] else [active[0]]) + ActiveWithout(active[1..], address)
  }

  // ----- What the operations do -------------------------------------------------------------------

  function Added(pool: Pool, address: Address, now: int): Pool {
    Pool(pool.wallets + [NewWallet(address, now)],
         if address in pool.active then pool.active else pool.active + [address],
         pool.usage[address := NewUsage(address, now)])
  }

  function Removed(pool: Pool, address: Address): Pool {
    Pool(WalletsWithout(pool.wallets, address), ActiveWithout(pool.active, address), pool.usage - {address})
  }

  function Released(pool: Pool, address: Address, success: bool, gasUsed: nat, now: int): Pool {
    var k := Find(pool.wallets, address);
    pool.(wallets := if k < |pool.wallets| then pool.wallets[k := pool.wallets[k].Recorded(success, now)]
                     else pool.wallets,
          usage := if address in pool.usage
                   then pool.usage[address := pool.usage[address].Released(success, gasUsed, now)]
                   else pool.usage)
  }

  /** The address was used before `now`; no listed address was used earlier, and no address listed in
      front of it as early. */
  ghost predicate IsOldest(usage: Usage, addresses: seq<Address>, now: int, k: nat) {
    && k < |addresses| && addresses[k] in usage && usage[addresses[k]].lastUsed < now
    && (forall i :: 0 <= i < |addresses| && addresses[i] in usage ==>
         usage[addresses[k]].lastUsed <= usage[addresses[i]].lastUsed)
    && (forall i :: 0 <= i < k && addresses[i] in usage ==> usage[addresses[k]].lastUsed < usage[addresses[i]].lastUsed)
  }

  /** The rotation's choice: the oldest address, or the first one when none was used before `now`. */
  ghost predicate Selects(usage: Usage, addresses: seq<Address>, now: int, address: Address) {
    || (exists k: nat :: IsOldest(usage, addresses, now, k) && address == addresses[k])
    || (|addresses| > 0 && address == addresses[0] &&
        forall i :: 0 <= i < |addresses| && addresses[i] in usage ==> usage[addresses[i]].lastUsed >= now)
  }

  /** The wallet `get_next_wallet` returns. */
  ghost predicate IsNext(pool: Pool, now: int, wallet: Option<WalletInfo>) {
    if pool.active == [] then wallet == None else
      exists address :: Selects(pool.usage, pool.active, now, address) &&
        var k := Find(pool.wallets, address);
        wallet == if k < |pool.wallets| then Some(pool.wallets[k]) else None
  }

  /** Taking a wallet marks its address as used now. */
  function AfterAcquire(pool: Pool, wallet: Option<WalletInfo>, now: int): Pool {
    if wallet.Some? && wallet.value.address in pool.usage then
      var a := wallet.value.address;
      pool.(usage := pool.usage[a := pool.usage[a].(lastUsed := now)])
    else pool
  }

  class WalletPool {
    var wallets: seq<WalletInfo>
    var activeWallets: seq<Address>
    var usage: Usage

    constructor ()
      ensures Contents() == Pool([], [], map[])
    {
      wallets, activeWallets, usage := [], [], map[];
    }

    ghost function Contents(): Pool
      reads this
    {
      Pool(wallets, activeWallets, usage)
    }

    method AddWallet(address: Address, now: int)
      modifies this
      ensures Contents() == Added(old(Contents()), address, now)
    {
      wallets := wallets + [NewWallet(address, now)];
      if address !in activeWallets {
        activeWallets := activeWallets + [address];
      }
      usage := usage[address := NewUsage(address, now)];
    }

    method RemoveWallet(address: Address)
      modifies this
      ensures Contents() == Removed(old(Contents()), address)
    {
      wallets := WalletsWithout(wallets, address);
      activeWallets := ActiveWithout(activeWallets, address);
      usage := usage - {address};
    }

    method SelectRoundRobin(addresses: seq<Address>, now: int) returns (oldestWallet: Address)
      requires |addresses| > 0
      ensures Selects(usage, addresses, now, oldestWallet)
    {
      oldestWallet := addresses[0];
      var oldestTime := now;
      ghost var k: int := -1;
      for i := 0 to |addresses|
        invariant -1 <= k < i
        invariant k < 0 ==> oldestTime == now && oldestWallet == addresses[0]
        invariant k >= 0 ==>
                    oldestWallet == addresses[k] && oldestWallet in usage
                    && usage[addresses[k]].lastUsed == oldestTime < now
        invariant forall j :: 0 <= j < i && addresses[j] in usage ==> oldestTime <= usage[addresses[j]].lastUsed
        invariant forall j :: 0 <= j < k && addresses[j] in usage ==> oldestTime < usage[addresses[j]].lastUsed
      {
        var address := addresses[i];
        if address in usage {
          var stats := usage[address];
          if stats.lastUsed < oldestTime {
            oldestTime := stats.lastUsed;
            oldestWallet := address;
            k := i;
          }
        }
      }
      assert k >= 0 ==> IsOldest(usage, addresses, now, k);
    }

    method GetNextWallet(now: int) returns (wallet: Option<WalletInfo>)
      ensures IsNext(Contents(), now, wallet)
    {
      if activeWallets == [] {
        return None;
      }
      var selected := SelectRoundRobin(activeWallets, now);
      var k := Find(wallets, selected);
      wallet := if k < |wallets| then Some(wallets[k]) else None;
    }

    method AcquireWallet(now: int) returns (wallet: Option<WalletInfo>)
      modifies this
      ensures IsNext(old(Contents()), now, wallet)
      ensures Contents() == AfterAcquire(old(Contents()), wallet, now)
    {
      wallet := GetNextWallet(now);
      if wallet.Some? && wallet.value.address in usage {
        var address := wallet.value.address;
        usage := usage[address := usage[address].(lastUsed := now)];
      }
    }

    method ReleaseWallet(address: Address, success: bool, gasUsed: nat, now: int)
      modifies this
      ensures Contents() == Released(old(Contents()), address, success, gasUsed, now)
    {
      var k := Find(wallets, address);
      if k < |wallets| {
        wallets := wallets[k := wallets[k].Recorded(success, now)];
      }
      if address in usage {
        var stats := usage[address];
        var total := stats.totalTransactions + 1;
        var gas := stats.totalGasUsed + gasUsed;
        usage := usage[address := UsageStats(stats.address, total,
                                             stats.successfulTransactions + (if success then 1 else 0),
                                             stats.failedTransactions + (if success then 0 else 1),
                                             now, gas / total, gas)];
      }
    }
  }
}
