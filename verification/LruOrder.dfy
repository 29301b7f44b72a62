/** What an entry of the memory cache says about the past, and which entry an eviction takes.  Both are read
    off the operations and the answers of the gets alone. */
module LruOrder {
  import opened Wrappers
  import opened MemoryCache
  import opened LruInclusion

  /** `results` are the answers of the gets of a run. */
  ghost predicate Answered<T(!new)>(ops: seq<Timed<T>>, states: seq<Data<T>>, results: seq<Option<T>>) {
    && |states| == |ops| + 1 && |results| == |ops|
    && forall i :: 0 <= i < |ops| && ops[i].op.Get? ==> results[i] == Got(states[i], ops[i].op.key, ops[i].at)
  }

  // ----- The past of a key --------------------------------------------------------------------------

  predicate SetsKey<T>(op: Op<T>, key: string) {
    op.Set? && op.key == key
  }

  predicate HitsKey<T>(op: Op<T>, result: Option<T>, key: string) {
    op.Get? && op.key == key && result.Some?
  }

  /** The last of the first `n` operations that sets the key. */
  function LastSet<T>(ops: seq<Timed<T>>, n: nat, key: string): (i: Option<nat>)
    requires n <= |ops|
    ensures i.Some? ==> i.value < n && SetsKey(ops[i.value].op, key)
    ensures forall j :: (if i.Some? then i.value + 1 else 0) <= j < n ==> !SetsKey(ops[j].op, key)
  {
    if n == 0 then None
    else if SetsKey(ops[n - 1].op, key) then Some(n - 1)
    else LastSet(ops, n - 1, key)
  }

  /** The last of the first `n` operations that sets the key or finds it. */
  function LastTouch<T>(ops: seq<Timed<T>>, results: seq<Option<T>>, n: nat, key: string): (i: Option<nat>)
    requires n <= |ops| == |results|
    ensures i.Some? ==> i.value < n
    ensures i.Some? ==> SetsKey(ops[i.value].op, key) || HitsKey(ops[i.value].op, results[i.value], key)
    ensures forall j :: (if i.Some? then i.value + 1 else 0) <= j < n ==>
              !SetsKey(ops[j].op, key) && !HitsKey(ops[j].op, results[j], key)
  {
    if n == 0 then None
    else if SetsKey(ops[n - 1].op, key) || HitsKey(ops[n - 1].op, results[n - 1], key) then Some(n - 1)
    else LastTouch(ops, results, n - 1, key)
  }

  /** How often the key was found since it was last set. */
  function Hits<T>(ops: seq<Timed<T>>, results: seq<Option<T>>, n: nat, key: string): nat
    requires n <= |ops| == |results|
  {
    if n == 0 || SetsKey(ops[n - 1].op, key) then 0
    else Hits(ops, results, n - 1, key) + if HitsKey(ops[n - 1].op, results[n - 1], key) then 1 else 0
  }

  /** The instant up to which the key's last value is served. */
  function ServedTo<T>(defaultTtl: nat, ops: seq<Timed<T>>, n: nat, key: string): int
    requires n <= |ops| && LastSet(ops, n, key).Some?
  {
    var t := ops[LastSet(ops, n, key).value];
    t.at + match t.op.ttl case None => defaultTtl case Some(ttl) => ttl
  }

  // ----- Entries ------------------------------------------------------------------------------------

  /** The entry of a key is what its last set stored, with the hits since then counted and the last touch
      stamped. */
  ghost predicate IsHistory<T>(defaultTtl: nat, ops: seq<Timed<T>>, results: seq<Option<T>>, n: nat, key: string,
                               entry: Entry<T>)
    requires n <= |ops| == |results|
  {
    && LastSet(ops, n, key).Some? && LastTouch(ops, results, n, key).Some?
    && entry.value == ops[LastSet(ops, n, key).value].op.value
    && entry.createdAt == ops[LastSet(ops, n, key).value].at
    && entry.expiresAt == Some(ServedTo(defaultTtl, ops, n, key))
    && entry.accessCount == Hits(ops, results, n, key)
    && entry.lastAccessed == ops[LastTouch(ops, results, n, key).value].at
  }

  /** What one operation leaves of an entry of another moment. */
  lemma Left<T(!new)>(maxSize: nat, defaultTtl: nat, before: Data<T>, t: Timed<T>, after: Data<T>, key: string)
    requires Next(maxSize, defaultTtl, before, t, after) && key in after && !SetsKey(t.op, key)
    ensures key in before
    ensures HitsKey(t.op, if t.op.Get? then Got(before, t.op.key, t.at) else None, key) ==>
              after[key] == before[key].(accessCount := before[key].accessCount + 1, lastAccessed := t.at)
    ensures !HitsKey(t.op, if t.op.Get? then Got(before, t.op.key, t.at) else None, key) ==>
              after[key] == before[key]
  {
  }

  lemma JustSet<T(!new)>(maxSize: nat, defaultTtl: nat, before: Data<T>, t: Timed<T>, after: Data<T>, key: string)
    requires Next(maxSize, defaultTtl, before, t, after) && SetsKey(t.op, key)
    ensures key in after
    ensures after[key] == Entry(t.op.value, t.at, Some(t.at + t.op.ttl.Or(Some(defaultTtl)).value), 0, t.at)
  {
  }

  /** On every run, whatever the clock, the contents are the past of their keys. */
  lemma {:induction false} EntriesAreHistory<T(!new)>(maxSize: nat, defaultTtl: nat, ops: seq<Timed<T>>,
                                                      states: seq<Data<T>>, results: seq<Option<T>>, n: nat,
                                                      key: string)
    requires IsRun(maxSize, defaultTtl, ops, states) && Answered(ops, states, results)
    requires n <= |ops| && key in states[n]
    ensures IsHistory(defaultTtl, ops, results, n, key, states[n][key])
  {
    hide Next;
    if n > 0 {
      var t := ops[n - 1];
      assert Next(maxSize, defaultTtl, states[n - 1], t, states[n]);
      if SetsKey(t.op, key) {
        JustSet(maxSize, defaultTtl, states[n - 1], t, states[n], key);
      } else {
        Left(maxSize, defaultTtl, states[n - 1], t, states[n], key);
        EntriesAreHistory(maxSize, defaultTtl, ops, states, results, n - 1, key);
      }
    }
  }

  /** A get finds a key exactly when the cache holds it and its time is not over, and then answers the value
      of its last set. */
  lemma AnswersAreHistory<T(!new)>(maxSize: nat, defaultTtl: nat, ops: seq<Timed<T>>, states: seq<Data<T>>,
                                   results: seq<Option<T>>, i: nat)
    requires IsRun(maxSize, defaultTtl, ops, states) && Answered(ops, states, results)
    requires i < |ops| && ops[i].op.Get?
    ensures var key := ops[i].op.key;
            && (key in states[i] ==> LastSet(ops, i, key).Some?)
            && results[i] == if key in states[i] && ops[i].at <= ServedTo(defaultTtl, ops, i, key)
                             then Some(ops[LastSet(ops, i, key).value].op.value) else None
  {
    var key := ops[i].op.key;
    if key in states[i] {
      EntriesAreHistory(maxSize, defaultTtl, ops, states, results, i, key);
    }
  }

  /** A cleanup drops exactly the keys whose time is over, and no later get can tell. */
  lemma CleanupDropsTheExpired<T(!new)>(maxSize: nat, defaultTtl: nat, ops: seq<Timed<T>>, states: seq<Data<T>>,
                                        results: seq<Option<T>>, i: nat, key: string)
    requires IsRun(maxSize, defaultTtl, ops, states) && Answered(ops, states, results)
    requires i < |ops| && ops[i].op.Cleanup? && key in states[i]
    ensures LastSet(ops, i, key).Some?
    ensures key in states[i + 1] <==> ops[i].at <= ServedTo(defaultTtl, ops, i, key)
    ensures forall later :: later >= ops[i].at ==> Got(states[i + 1], key, later) == Got(states[i], key, later)
  {
    EntriesAreHistory(maxSize, defaultTtl, ops, states, results, i, key);
    assert Next(maxSize, defaultTtl, states[i], ops[i], states[i + 1]);
  }

  // ----- Evictions ----------------------------------------------------------------------------------

  /** With a strictly advancing clock, accesses are as old as the touches they stem from. */
  lemma OlderIffTouchedEarlier<T(!new)>(maxSize: nat, defaultTtl: nat, ops: seq<Timed<T>>, states: seq<Data<T>>,
                                        results: seq<Option<T>>, n: nat, a: string, b: string)
    requires IsRun(maxSize, defaultTtl, ops, states) && Answered(ops, states, results) && StrictClock(ops)
    requires n <= |ops| && a in states[n] && b in states[n]
    ensures LastTouch(ops, results, n, a).Some? && LastTouch(ops, results, n, b).Some?
    ensures states[n][a].lastAccessed < states[n][b].lastAccessed <==>
            LastTouch(ops, results, n, a).value < LastTouch(ops, results, n, b).value
  {
    EntriesAreHistory(maxSize, defaultTtl, ops, states, results, n, a);
    EntriesAreHistory(maxSize, defaultTtl, ops, states, results, n, b);
  }

  /** Setting a new key on a full cache drops the entry accessed earliest and no other. */
  lemma FullSet<T(!new)>(maxSize: nat, before: Data<T>, key: string, value: T, ttl: Option<nat>, now: int,
                         after: Data<T>, k: string)
    requires Stamped(before, now) && Sets(maxSize, before, key, value, ttl, now, after)
    requires |before| >= maxSize && key !in before && k in before
    ensures after.Keys <= before.Keys + {key}
    ensures k in after <==> exists other :: other in before && before[other].lastAccessed < before[k].lastAccessed
  {
    var room :| MakesRoom(maxSize, before, key, room, now) && after == room[key := NewEntry(value, ttl, now)];
    EvictionShrinks(before, room, now);
    var victim :| IsLru(before, victim, now) && room == before - {victim};
    if k != victim {
      assert before[victim].lastAccessed < before[k].lastAccessed;
    }
  }

  /** With a strictly advancing clock, setting a new key on a full cache drops exactly the key touched
      earliest: a cached key survives if and only if some other was touched before it.  Any other set drops
      nothing. */
  lemma EarliestTouchedIsDropped<T(!new)>(maxSize: nat, defaultTtl: nat, ops: seq<Timed<T>>, states: seq<Data<T>>,
                                          results: seq<Option<T>>, i: nat, k: string)
    requires IsRun(maxSize, defaultTtl, ops, states) && Answered(ops, states, results) && StrictClock(ops)
    requires i < |ops| && ops[i].op.Set? && k in states[i]
    ensures LastTouch(ops, results, i, k).Some?
    ensures forall other :: other in states[i] ==> LastTouch(ops, results, i, other).Some?
    ensures states[i + 1].Keys <= states[i].Keys + {ops[i].op.key}
    ensures k in states[i + 1] <==>
              || |states[i]| < maxSize || ops[i].op.key in states[i]
              || exists other :: other in states[i] &&
                   LastTouch(ops, results, i, other).value < LastTouch(ops, results, i, k).value
  {
    hide Sets;
    var op := ops[i].op;
    OlderIffTouchedEarlier(maxSize, defaultTtl, ops, states, results, i, k, k);
    StampedRun(maxSize, defaultTtl, ops, states, i, ops[i].at);
    assert Next(maxSize, defaultTtl, states[i], ops[i], states[i + 1]);
    forall other | other in states[i]
      ensures LastTouch(ops, results, i, other).Some?
      ensures states[i][other].lastAccessed < states[i][k].lastAccessed <==>
              LastTouch(ops, results, i, other).value < LastTouch(ops, results, i, k).value
    {
      OlderIffTouchedEarlier(maxSize, defaultTtl, ops, states, results, i, other, k);
    }
    if |states[i]| < maxSize || op.key in states[i] {
      RoomySet(maxSize, states[i], op.key, op.value, op.ttl.Or(Some(defaultTtl)), ops[i].at, states[i + 1]);
    } else {
      FullSet(maxSize, states[i], op.key, op.value, op.ttl.Or(Some(defaultTtl)), ops[i].at, states[i + 1], k);
    }
  }

  lemma RoomySet<T(!new)>(maxSize: nat, before: Data<T>, key: string, value: T, ttl: Option<nat>, now: int,
                          after: Data<T>)
    requires Sets(maxSize, before, key, value, ttl, now, after) && (|before| < maxSize || key in before)
    ensures after.Keys == before.Keys + {key}
  {
  }
}
