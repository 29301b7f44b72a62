/** Replay protection of src/security/replay.rs: a per-address log of recent nonces, pruned by every
    accepted call and by a background cleaner.

    Instants are integers.  A caller reads the clock before it takes the lock, so the instants of
    successive critical sections need not be in order. */
module ReplayProtection {

  type Address = nat
  const U64_MAX: nat := 0xFFFF_FFFF_FFFF_FFFF

  datatype Entry = Entry(timestamp: int, nonce: nat, txHash: string)

  datatype Verdict = Recorded | ReplayAttack

  type Entries = map<Address, seq<Entry>>

  function EntriesOf(entries: Entries, address: Address): seq<Entry> {
    if address in entries then entries[address] else []
  }

  /** What `retain` leaves of an address's entries: those later than the cutoff. */
  function Live(log: seq<Entry>, cutoff: int): seq<Entry> {
    if log == [] then [] else
      var rest := Live(log[..|log| - 1], cutoff);
      if log[|log| - 1].timestamp > cutoff then rest + [log[|log| - 1]] else rest
  }

  predicate Uses(log: seq<Entry>, nonce: nat, cutoff: int) {
    exists i :: 0 <= i < |log| && log[i].nonce == nonce && log[i].timestamp > cutoff
  }

  /** `top` is the greatest nonce in use, or zero when there is none. */
  ghost predicate IsTop(log: seq<Entry>, cutoff: int, top: nat) {
    && (forall i :: 0 <= i < |log| && log[i].timestamp > cutoff ==> log[i].nonce <= top)
    && (top == 0 || Uses(log, top, cutoff))
  }

  /** The entries of an address after an accepted call. */
  function Extended(log: seq<Entry>, window: nat, now: int, nonce: nat, txHash: string): seq<Entry> {
    Live(log + [Entry(now, nonce, txHash)], now - window)
  }

  /** The map after the cleaner ran: expired entries dropped, addresses without entries forgotten. */
  function Cleaned(entries: Entries, cutoff: int): Entries {
    map a | a in entries && Live(entries[a], cutoff) != [] :: Live(entries[a], cutoff)
  }

  class ReplayProtection {
    var entries: Entries
    const window: nat

    constructor (window: nat)
      ensures this.window == window && entries == map[]
    {
      this.window := window;
      entries := map[];
    }

    method CheckAndRecord(address: Address, nonce: nat, txHash: string, now: int) returns (verdict: Verdict)
      modifies this
      ensures verdict.ReplayAttack? <==> Uses(EntriesOf(old(entries), address), nonce, now - window)
      ensures verdict.ReplayAttack? ==> entries == old(entries)[address := EntriesOf(old(entries), address)]
      ensures verdict.Recorded? ==>
                entries == old(entries)[
                  address := Extended(EntriesOf(old(entries), address), window, now, nonce, txHash)]
    {
      var cutoff := now - window;
      if address !in entries {
        entries := entries[address := []];
      }
      var log := entries[address];

      for i := 0 to |log|
        invariant forall k :: 0 <= k < i ==> !(log[k].nonce == nonce && log[k].timestamp > cutoff)
      {
        if log[i].nonce == nonce && log[i].timestamp > cutoff {
          return ReplayAttack;
        }
      }

      log := log + [Entry(now, nonce, txHash)];
      entries := entries[address := Live(log, cutoff)];
      return Recorded;
    }

    method IsNonceUsed(address: Address, nonce: nat, now: int) returns (used: bool)
      ensures used == Uses(EntriesOf(entries, address), nonce, now - window)
    {
      var cutoff := now - window;
      if address in entries {
        var log := entries[address];
        for i := 0 to |log|
          invariant forall k :: 0 <= k < i ==> !(log[k].nonce == nonce && log[k].timestamp > cutoff)
        {
          if log[i].nonce == nonce && log[i].timestamp > cutoff {
            return true;
          }
        }
      }
      return false;
    }

    method GetNextNonce(address: Address, now: int) returns (next: nat)
      ensures exists top :: IsTop(EntriesOf(entries, address), now - window, top) && next == Successor(top)
    {
      var cutoff := now - window;
      var top := 0;
      ghost var log := EntriesOf(entries, address);
      if address in entries {
        for i := 0 to |entries[address]|
          invariant IsTop(log[..i], cutoff, top)
        {
          var entry := entries[address][i];
          assert log[..i + 1] == log[..i] + [entry];
          if entry.timestamp > cutoff && entry.nonce > top {
            top := entry.nonce;
            assert log[..i + 1][i].nonce == top;
          } else if top != 0 {
            ghost var k :| 0 <= k < i && log[..i][k].nonce == top && log[..i][k].timestamp > cutoff;
            assert log[..i + 1][k].nonce == top;
          }
        }
        assert log[..|log|] == log;
      }
      return Successor(top);
    }

    /** One round of the background cleaner. */
    method CleanUp(now: int)
      modifies this
      ensures entries == Cleaned(old(entries), now - window)
    {
      entries := map a | a in entries && Live(entries[a], now - window) != [] :: Live(entries[a], now - window);
    }
  }

  /** Addition on 64-bit nonces as the release build performs it. */
  function Successor(nonce: nat): nat {
    (nonce + 1) % (U64_MAX + 1)
  }

  // ----- Entries ------------------------------------------------------------------------------

  /** What is left are exactly the later entries, each as often as before. */
  lemma {:induction false} LiveKeeps(log: seq<Entry>, cutoff: int, e: Entry)
    ensures multiset(Live(log, cutoff))[e] == if e.timestamp > cutoff then multiset(log)[e] else 0
  {
    if log != [] {
      LiveKeeps(log[..|log| - 1], cutoff, e);
      assert log == log[..|log| - 1] + [log[|log| - 1]];
    }
  }

  lemma LiveMembers(log: seq<Entry>, cutoff: int, e: Entry)
    ensures e in Live(log, cutoff) <==> e in log && e.timestamp > cutoff
  {
    LiveKeeps(log, cutoff, e);
    assert e in Live(log, cutoff) <==> e in multiset(Live(log, cutoff));
    assert e in log <==> e in multiset(log);
  }

  /** The cleaner forgets exactly the addresses none of whose entries is later than the cutoff, and leaves the
      others their later entries. */
  lemma CleanedKeeps(entries: Entries, cutoff: int, address: Address, e: Entry)
    ensures address in Cleaned(entries, cutoff) <==>
            exists f :: f in EntriesOf(entries, address) && f.timestamp > cutoff
    ensures e in EntriesOf(Cleaned(entries, cutoff), address) <==>
            e in EntriesOf(entries, address) && e.timestamp > cutoff
  {
    var log := EntriesOf(entries, address);
    forall f: Entry
      ensures f in Live(log, cutoff) <==> f in log && f.timestamp > cutoff
    {
      LiveMembers(log, cutoff, f);
    }
    assert Live(log, cutoff) != [] <==> exists f :: f in Live(log, cutoff) by {
      if Live(log, cutoff) != [] {
        assert Live(log, cutoff)[0] in Live(log, cutoff);
      }
    }
  }

  /** Dropping entries up to `dropped` hides no nonce from a check that only looks past it. */
  lemma UsesLive(log: seq<Entry>, dropped: int, nonce: nat, cutoff: int)
    requires dropped <= cutoff
    ensures Uses(Live(log, dropped), nonce, cutoff) == Uses(log, nonce, cutoff)
  {
    var live := Live(log, dropped);
    if Uses(log, nonce, cutoff) {
      var i :| 0 <= i < |log| && log[i].nonce == nonce && log[i].timestamp > cutoff;
      LiveMembers(log, dropped, log[i]);
      var k :| 0 <= k < |live| && live[k] == log[i];
    }
    if Uses(live, nonce, cutoff) {
      var i :| 0 <= i < |live| && live[i].nonce == nonce && live[i].timestamp > cutoff;
      LiveMembers(log, dropped, live[i]);
      var k :| 0 <= k < |log| && log[k] == live[i];
    }
  }
}
