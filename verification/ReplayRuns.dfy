/** What replay protection guarantees over whole runs of concurrent callers and the cleaner. */
module ReplayRuns {
  import opened ReplayProtection

  // ----- Runs ---------------------------------------------------------------------------------

  /** A critical section of a run, in lock order, with the instant its thread sampled beforehand. */
  datatype Step =
    | Record(address: Address, nonce: nat, txHash: string, at: int)
    | Clean(at: int)

  predicate Accepts(window: nat, entries: Entries, step: Step)
    requires step.Record?
  {
    !Uses(EntriesOf(entries, step.address), step.nonce, step.at - window)
  }

  function After(window: nat, entries: Entries, step: Step): Entries {
    match step
    case Clean(at) => Cleaned(entries, at - window)
    case Record(address, nonce, txHash, at) =>
      var log := EntriesOf(entries, address);
      if Accepts(window, entries, step) then entries[address := Extended(log, window, at, nonce, txHash)]
      else entries[address := log]
  }

  /** The protection's map after a run. */
  function Stored(window: nat, steps: seq<Step>): Entries {
    if steps == [] then map[] else
      After(window, Stored(window, steps[..|steps| - 1]), steps[|steps| - 1])
  }

  /** Step `i` of the run records its nonce. */
  predicate Accepted(window: nat, steps: seq<Step>, i: nat)
    requires i < |steps|
  {
    steps[i].Record? && Accepts(window, Stored(window, steps[..i]), steps[i])
  }

  /** Sampled instants are out of lock order by at most `skew`. */
  ghost predicate Skewed(steps: seq<Step>, skew: nat) {
    forall i, j :: 0 <= i < j < |steps| ==> steps[i].at <= steps[j].at + skew
  }

  /** Step `i`'s entry is still stored, or some later critical section sampled an instant a window past it. */
  ghost predicate Remembered(window: nat, steps: seq<Step>, i: nat)
    requires i < |steps| && steps[i].Record?
  {
    || Entry(steps[i].at, steps[i].nonce, steps[i].txHash) in EntriesOf(Stored(window, steps), steps[i].address)
    || exists k :: i <= k < |steps| && steps[k].at >= steps[i].at + window
  }

  lemma AcceptedPrefix(window: nat, steps: seq<Step>, n: nat, i: nat)
    requires i < n <= |steps|
    ensures Accepted(window, steps[..n], i) == Accepted(window, steps, i)
  {
    assert steps[..n][..i] == steps[..i];
  }

  /** One critical section either keeps an entry or sampled an instant a window past it. */
  lemma KeptOrExpired(window: nat, entries: Entries, step: Step, address: Address, e: Entry)
    requires e in EntriesOf(entries, address)
    ensures e in EntriesOf(After(window, entries, step), address) || step.at >= e.timestamp + window
  {
    match step
    case Clean(at) =>
      LiveMembers(entries[address], at - window, e);
    case Record(a, nonce, txHash, at) =>
      if a == address {
        LiveMembers(EntriesOf(entries, a) + [Entry(at, nonce, txHash)], at - window, e);
      }
  }

  /** An accepted call stores its entry, unless the window is empty. */
  lemma AcceptedIsStored(window: nat, entries: Entries, step: Step)
    requires step.Record? && Accepts(window, entries, step)
    ensures window == 0 ||
            Entry(step.at, step.nonce, step.txHash) in EntriesOf(After(window, entries, step), step.address)
  {
    var e := Entry(step.at, step.nonce, step.txHash);
    LiveMembers(EntriesOf(entries, step.address) + [e], step.at - window, e);
  }

  lemma {:induction false} AcceptedIsRemembered(window: nat, steps: seq<Step>, i: nat)
    requires i < |steps| && Accepted(window, steps, i)
    ensures Remembered(window, steps, i)
  {
    hide After, Accepts;
    var n := |steps| - 1;
    var front := steps[..n];
    var e := Entry(steps[i].at, steps[i].nonce, steps[i].txHash);
    if i == n {
      AcceptedIsStored(window, Stored(window, front), steps[n]);
    } else {
      AcceptedPrefix(window, steps, n, i);
      AcceptedIsRemembered(window, front, i);
      if e in EntriesOf(Stored(window, front), steps[i].address) {
        KeptOrExpired(window, Stored(window, front), steps[n], steps[i].address, e);
      } else {
        var k :| i <= k < |front| && front[k].at >= front[i].at + window;
        assert steps[k].at >= steps[i].at + window;
      }
    }
  }

  /** Replay safety under concurrency: two acceptances of the same nonce of the same address are at
      least the window less the skew apart, wherever other calls and cleanings are interleaved. */
  lemma AcceptancesFarApart(window: nat, skew: nat, steps: seq<Step>, i: nat, j: nat)
    requires Skewed(steps, skew) && i < j < |steps|
    requires Accepted(window, steps, i) && Accepted(window, steps, j)
    requires steps[i].address == steps[j].address && steps[i].nonce == steps[j].nonce
    ensures steps[j].at - steps[i].at >= window - skew
  {
    var front := steps[..j];
    AcceptedPrefix(window, steps, j, i);
    AcceptedIsRemembered(window, front, i);
    if Entry(steps[i].at, steps[i].nonce, steps[i].txHash) !in EntriesOf(Stored(window, front), steps[i].address) {
      var k :| i <= k < |front| && front[k].at >= front[i].at + window;
      assert steps[k].at <= steps[j].at + skew;
    }
  }

  lemma StoredAppend(window: nat, steps: seq<Step>, step: Step)
    ensures Stored(window, steps + [step]) == After(window, Stored(window, steps), step)
  {
    assert (steps + [step])[..|steps|] == steps;
  }

  lemma LiveOne(e: Entry, cutoff: int)
    ensures Live([e], cutoff) == if e.timestamp > cutoff then [e] else []
  {
    LiveAppend([], e, cutoff);
    assert [] + [e] == [e];
  }

  lemma RecordOne(window: nat, address: Address, nonce: nat, txHash: string, at: int)
    ensures After(window, map[], Record(address, nonce, txHash, at)) ==
            map[address := Live([Entry(at, nonce, txHash)], at - window)]
  {
    hide Live, Accepts;
    NothingRefused(window, Record(address, nonce, txHash, at));
    assert EntriesOf(map[], address) == [];
    assert [] + [Entry(at, nonce, txHash)] == [Entry(at, nonce, txHash)];
  }

  lemma CleanOne(address: Address, log: seq<Entry>, cutoff: int)
    requires Live(log, cutoff) == []
    ensures Cleaned(map[address := log], cutoff) == map[]
  {
    hide Live;
  }

  /** The cleaner forgets an entry that was recorded a window before the instant it sampled. */
  lemma RecordedAndCleaned(window: nat, address: Address, nonce: nat, txHash: string, at: int)
    ensures After(window, After(window, map[], Record(address, nonce, txHash, at)), Clean(at + window)) == map[]
  {
    hide Live, Accepts, Cleaned;
    var e := Entry(at, nonce, txHash);
    var log := Live([e], at - window);
    RecordOne(window, address, nonce, txHash, at);
    LiveOne(e, at - window);
    LiveOne(e, at);
    EmptyLive(at);
    CleanOne(address, log, at);
  }

  lemma EmptyLive(cutoff: int)
    ensures Live([], cutoff) == []
  {
  }

  /** The bound is exact: whatever the window and a skew within it, some run accepts a nonce twice
      precisely that far apart. */
  lemma BoundIsReached(window: nat, skew: nat) returns (steps: seq<Step>)
    requires skew <= window
    ensures |steps| == 3 && Skewed(steps, skew)
    ensures Accepted(window, steps, 0) && Accepted(window, steps, 2)
    ensures steps[0].address == steps[2].address && steps[0].nonce == steps[2].nonce
    ensures steps[2].at - steps[0].at == window - skew
  {
    hide Stored, After, Accepts;
    var first, second, third := Record(0, 1, "a", 0), Clean(window), Record(0, 1, "b", window - skew);
    steps := [first, second, third];
    assert steps[..0] == [] && steps[..2] == [] + [first] + [second];
    StoredNothing(window);
    StoredAppend(window, [], first);
    StoredAppend(window, [] + [first], second);
    RecordedAndCleaned(window, 0, 1, "a", 0);
    NothingRefused(window, first);
    NothingRefused(window, third);
  }

  lemma StoredNothing(window: nat)
    ensures Stored(window, []) == map[]
  {
  }

  /** Without entries every call is accepted. */
  lemma NothingRefused(window: nat, step: Step)
    requires step.Record?
    ensures Accepts(window, map[], step)
  {
  }

  // ----- Pruning is invisible when the samples are in order --------------------------------------

  /** How a critical section extends the full log of an address. */
  function LogAfter(window: nat, log: seq<Entry>, address: Address, step: Step): seq<Entry> {
    match step
    case Clean(_) => log
    case Record(a, nonce, txHash, at) =>
      if a == address && !Uses(log, nonce, at - window) then log + [Entry(at, nonce, txHash)] else log
  }

  /** The reference: every accepted entry of an address, decided on the full log, nothing forgotten. */
  function Log(window: nat, steps: seq<Step>, address: Address): seq<Entry> {
    if steps == [] then [] else
      LogAfter(window, Log(window, steps[..|steps| - 1], address), address, steps[|steps| - 1])
  }

  lemma {:induction false} LiveLive(log: seq<Entry>, dropped: int, cutoff: int)
    requires dropped <= cutoff
    ensures Live(Live(log, dropped), cutoff) == Live(log, cutoff)
  {
    if log != [] {
      var front, last := log[..|log| - 1], log[|log| - 1];
      LiveLive(front, dropped, cutoff);
      if last.timestamp > dropped {
        var kept := Live(front, dropped) + [last];
        assert kept[..|kept| - 1] == Live(front, dropped);
      }
    }
  }

  lemma LiveAppend(log: seq<Entry>, e: Entry, cutoff: int)
    ensures Live(log + [e], cutoff) == Live(log, cutoff) + if e.timestamp > cutoff then [e] else []
  {
    assert (log + [e])[..|log|] == log;
    assert Live(log, cutoff) + [] == Live(log, cutoff);
  }

  /** Logs with the same live entries decide a call alike and have the same live entries after it. */
  lemma SameStep(stored: seq<Entry>, log: seq<Entry>, window: nat, at: int, nonce: nat, txHash: string, cutoff: int)
    requires at - window <= cutoff
    requires Live(stored, cutoff) == Live(log, cutoff) && Live(stored, at - window) == Live(log, at - window)
    ensures Uses(stored, nonce, at - window) == Uses(log, nonce, at - window)
    ensures Live(Extended(stored, window, at, nonce, txHash), cutoff) == Live(log + [Entry(at, nonce, txHash)], cutoff)
  {
    hide Live;
    var e, dropped := Entry(at, nonce, txHash), at - window;
    UsesLive(stored, dropped, nonce, dropped);
    UsesLive(log, dropped, nonce, dropped);
    LiveLive(stored + [e], dropped, cutoff);
    LiveAppend(stored, e, cutoff);
    LiveAppend(log, e, cutoff);
  }

  lemma EntriesAfterClean(entries: Entries, address: Address, cutoff: int)
    ensures EntriesOf(Cleaned(entries, cutoff), address) == Live(EntriesOf(entries, address), cutoff)
  {
  }

  lemma SameAfter(window: nat, entries: Entries, log: seq<Entry>, address: Address, step: Step, cutoff: int)
    requires step.at - window <= cutoff
    requires Live(EntriesOf(entries, address), cutoff) == Live(log, cutoff)
    requires Live(EntriesOf(entries, address), step.at - window) == Live(log, step.at - window)
    ensures Live(EntriesOf(After(window, entries, step), address), cutoff) ==
            Live(LogAfter(window, log, address, step), cutoff)
  {
    hide Live;
    match step
    case Clean(_) =>
      EntriesAfterClean(entries, address, step.at - window);
      LiveLive(EntriesOf(entries, address), step.at - window, cutoff);
    case Record(a, nonce, txHash, at) =>
      if a == address {
        var stored := EntriesOf(entries, address);
        SameStep(stored, log, window, at, nonce, txHash, cutoff);
        assert EntriesOf(After(window, entries, step), address) ==
               if Uses(stored, nonce, at - window) then stored else Extended(stored, window, at, nonce, txHash);
      } else {
        assert EntriesOf(After(window, entries, step), address) == EntriesOf(entries, address);
      }
  }

  /** Neither the pruning of accepted calls nor the cleaner shows: what is live of the stored entries
      is what is live of the full log, at every cutoff that a later call can use. */
  lemma {:induction false} PruningInvisible(window: nat, steps: seq<Step>, address: Address, cutoff: int)
    requires Skewed(steps, 0) && (steps != [] ==> cutoff >= steps[|steps| - 1].at - window)
    ensures Live(EntriesOf(Stored(window, steps), address), cutoff) == Live(Log(window, steps, address), cutoff)
  {
    if steps != [] {
      var front, step := steps[..|steps| - 1], steps[|steps| - 1];
      assert front != [] ==> front[|front| - 1].at <= step.at;
      PruningInvisible(window, front, address, cutoff);
      PruningInvisible(window, front, address, step.at - window);
      SameAfter(window, Stored(window, front), Log(window, front, address), address, step, cutoff);
    }
  }

  /** Every verdict and every answer to `is_nonce_used` is that of a log that forgets nothing. */
  lemma AnswersAsFullLog(window: nat, steps: seq<Step>, address: Address, nonce: nat, now: int)
    requires Skewed(steps, 0) && (steps != [] ==> steps[|steps| - 1].at <= now)
    ensures Uses(EntriesOf(Stored(window, steps), address), nonce, now - window) ==
            Uses(Log(window, steps, address), nonce, now - window)
  {
    var cutoff := now - window;
    PruningInvisible(window, steps, address, cutoff);
    UsesLive(EntriesOf(Stored(window, steps), address), cutoff, nonce, cutoff);
    UsesLive(Log(window, steps, address), cutoff, nonce, cutoff);
  }

  /** The greatest live nonce, which `get_next_nonce` builds on, is that of a log that forgets nothing. */
  lemma TopAsFullLog(window: nat, steps: seq<Step>, address: Address, now: int, top: nat)
    requires Skewed(steps, 0) && (steps != [] ==> steps[|steps| - 1].at <= now)
    ensures IsTop(EntriesOf(Stored(window, steps), address), now - window, top) <==>
            IsTop(Log(window, steps, address), now - window, top)
  {
    var cutoff := now - window;
    var stored, log := EntriesOf(Stored(window, steps), address), Log(window, steps, address);
    AnswersAsFullLog(window, steps, address, top, now);
    if IsTop(stored, cutoff, top) {
      BoundedBy(stored, log, window, steps, address, now, top);
    }
    if IsTop(log, cutoff, top) {
      BoundedBy(log, stored, window, steps, address, now, top);
    }
  }

  lemma BoundedBy(from: seq<Entry>, to: seq<Entry>, window: nat, steps: seq<Step>, address: Address, now: int, top: nat)
    requires Skewed(steps, 0) && (steps != [] ==> steps[|steps| - 1].at <= now)
    requires {from, to} == {EntriesOf(Stored(window, steps), address), Log(window, steps, address)}
    requires forall i :: 0 <= i < |from| && from[i].timestamp > now - window ==> from[i].nonce <= top
    ensures forall i :: 0 <= i < |to| && to[i].timestamp > now - window ==> to[i].nonce <= top
  {
    forall i | 0 <= i < |to| && to[i].timestamp > now - window
      ensures to[i].nonce <= top
    {
      AnswersAsFullLog(window, steps, address, to[i].nonce, now);
      assert Uses(to, to[i].nonce, now - window);
      assert to in {from, to} && from in {from, to};
      assert Uses(from, to[i].nonce, now - window);
    }
  }

  /** Entries that repeat a nonce are a window apart. */
  ghost predicate NoncesApart(log: seq<Entry>, window: nat) {
    forall i, j :: 0 <= i < j < |log| && log[i].nonce == log[j].nonce ==> log[j].timestamp - log[i].timestamp >= window
  }

  ghost predicate UpTo(log: seq<Entry>, now: int) {
    forall i :: 0 <= i < |log| ==> log[i].timestamp <= now
  }

  lemma {:induction false} LogApart(window: nat, steps: seq<Step>, address: Address)
    requires Skewed(steps, 0)
    ensures NoncesApart(Log(window, steps, address), window)
    ensures steps != [] ==> UpTo(Log(window, steps, address), steps[|steps| - 1].at)
  {
    if steps != [] {
      var front, step := steps[..|steps| - 1], steps[|steps| - 1];
      LogApart(window, front, address);
      assert front != [] ==> front[|front| - 1].at <= step.at;
    }
  }

  lemma {:induction false} LiveApart(log: seq<Entry>, window: nat, cutoff: int)
    requires NoncesApart(log, window)
    ensures NoncesApart(Live(log, cutoff), window)
  {
    if log != [] {
      var front, last := log[..|log| - 1], log[|log| - 1];
      LiveApart(front, window, cutoff);
      var kept := Live(front, cutoff);
      forall i | 0 <= i < |kept| && kept[i].nonce == last.nonce
        ensures last.timestamp - kept[i].timestamp >= window
      {
        LiveMembers(front, cutoff, kept[i]);
        var k :| 0 <= k < |front| && front[k] == kept[i];
      }
    }
  }

  /** No nonce is live twice: the stored entries of an address that are younger than the window all
      carry different nonces. */
  lemma LiveNoncesDistinct(window: nat, steps: seq<Step>, address: Address, now: int)
    requires Skewed(steps, 0) && (steps != [] ==> steps[|steps| - 1].at <= now)
    ensures var live := Live(EntriesOf(Stored(window, steps), address), now - window);
            forall i, j :: 0 <= i < j < |live| ==> live[i].nonce != live[j].nonce
  {
    hide Live, Stored;
    var log := Log(window, steps, address);
    var live := Live(log, now - window);
    LogApart(window, steps, address);
    assert UpTo(log, now);
    hide Log, LogAfter;
    PruningInvisible(window, steps, address, now - window);
    LiveApart(log, window, now - window);
    forall i, j | 0 <= i < j < |live|
      ensures live[i].nonce != live[j].nonce
    {
      LiveMembers(log, now - window, live[i]);
      LiveMembers(log, now - window, live[j]);
    }
  }

  /** The nonce `get_next_nonce` proposes is the least one above all live nonces, or 1 when none above zero is
      live; only past the last 64-bit number it wraps to zero. */
  lemma NextNonceIsLeastAbove(log: seq<Entry>, cutoff: int, top: nat)
    requires IsTop(log, cutoff, top) && top <= 0xFFFF_FFFF_FFFF_FFFF
    ensures Successor(top) == 0 <==> Uses(log, 0xFFFF_FFFF_FFFF_FFFF, cutoff)
    ensures Successor(top) != 0 ==>
              && (forall e :: e in log && e.timestamp > cutoff ==> e.nonce < Successor(top))
              && (Successor(top) == 1 || Uses(log, Successor(top) - 1, cutoff))
  {
  }

  /** The nonce `get_next_nonce` proposed at `now` is accepted at any later instant, unless the greatest
      live nonce was the last 64-bit number: then the proposal wraps to zero and is accepted only when
      zero is not in use. */
  lemma NextNonceAccepted(window: nat, entries: Entries, address: Address, txHash: string, now: int, later: int,
                          top: nat)
    requires IsTop(EntriesOf(entries, address), now - window, top) && top <= U64_MAX && now <= later
    ensures Accepts(window, entries, Record(address, Successor(top), txHash, later)) <==>
            top < U64_MAX || !Uses(EntriesOf(entries, address), 0, later - window)
  {
    if top == U64_MAX {
      assert Successor(top) == 0;
    } else {
      assert Successor(top) == top + 1;
    }
  }
}
