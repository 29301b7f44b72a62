/** Runs of the memory cache when the clock advances strictly from operation to operation: how large the
    cache gets, and what a larger capacity buys. */
module LruInclusion {
  import opened Collections
  import opened Keys
  import opened Wrappers
  import opened MemoryCache

  datatype Op<+T> =
    | Get(key: string)
    | Set(key: string, value: T, ttl: Option<nat>)
    | Delete(key: string)
    | Clear
    | Cleanup

  /** An operation and the instant at which it runs. */
  datatype Timed<+T> = Timed(op: Op<T>, at: int)

  ghost predicate Next<T(!new)>(maxSize: nat, defaultTtl: nat, before: Data<T>, t: Timed<T>, after: Data<T>) {
    match t.op
    case Get(key) => after == AfterGet(before, key, t.at)
    case Set(key, value, ttl) => Sets(maxSize, before, key, value, ttl.Or(Some(defaultTtl)), t.at, after)
    case Delete(key) => after == before - {key}
    case Clear => after == map[]
    case Cleanup => after == Unexpired(before, t.at)
  }

  /** `states` are the contents of a cache of capacity `maxSize` before, between and after the operations. */
  ghost predicate IsRun<T(!new)>(maxSize: nat, defaultTtl: nat, ops: seq<Timed<T>>, states: seq<Data<T>>) {
    && |states| == |ops| + 1
    && states[0] == map[]
    && forall i :: 0 <= i < |ops| ==> Next(maxSize, defaultTtl, states[i], ops[i], states[i + 1])
  }

  ghost predicate StrictClock<T>(ops: seq<Timed<T>>) {
    forall i, j :: 0 <= i < j < |ops| ==> ops[i].at < ops[j].at
  }

  /** All accesses are in the past and at different instants. */
  ghost predicate Stamped<T>(data: Data<T>, now: int) {
    && (forall k :: k in data ==> data[k].lastAccessed < now)
    && forall k, l :: k in data && l in data && k != l ==> data[k].lastAccessed != data[l].lastAccessed
  }

  lemma StampedNext<T(!new)>(maxSize: nat, defaultTtl: nat, before: Data<T>, t: Timed<T>, after: Data<T>, later: int)
    requires Stamped(before, t.at) && Next(maxSize, defaultTtl, before, t, after) && t.at < later
    ensures Stamped(after, later)
  {
  }

  // ----- Size -------------------------------------------------------------------------------------

  /** With all accesses in the past, an eviction removes exactly one entry, if there is any. */
  lemma EvictionShrinks<T(!new)>(before: Data<T>, after: Data<T>, now: int)
    requires Stamped(before, now) && Evicts(before, after, now)
    ensures before == map[] ==> after == map[]
    ensures before != map[] ==>
              |after| == |before| - 1 && exists key :: IsLru(before, key, now) && after == before - {key}
  {
    if before != map[] {
      var k :| k in before;
      var key :| IsLru(before, key, now) && after == before - {key};
      assert after.Keys == before.Keys - {key};
    }
  }

  lemma SizeAfterSet<T(!new)>(maxSize: nat, before: Data<T>, key: string, value: T, ttl: Option<nat>, now: int,
                              after: Data<T>)
    requires Stamped(before, now) && Sets(maxSize, before, key, value, ttl, now, after)
    requires |before| <= Capacity(maxSize)
    ensures |after| <= Capacity(maxSize)
  {
    hide Evicts;
    var room :| MakesRoom(maxSize, before, key, room, now) && after == room[key := NewEntry(value, ttl, now)];
    assert after.Keys == room.Keys + {key};
    if key in before {
      assert after.Keys == before.Keys;
    } else if |before| >= maxSize {
      EvictionShrinks(before, room, now);
    }
  }

  /** With all accesses in the past, every operation keeps within the capacity. */
  lemma SizeNext<T(!new)>(maxSize: nat, defaultTtl: nat, before: Data<T>, t: Timed<T>, after: Data<T>)
    requires Stamped(before, t.at) && Next(maxSize, defaultTtl, before, t, after)
    requires |before| <= Capacity(maxSize)
    ensures |after| <= Capacity(maxSize)
  {
    if t.op.Set? {
      SizeAfterSet(maxSize, before, t.op.key, t.op.value, t.op.ttl.Or(Some(defaultTtl)), t.at, after);
    } else {
      assert after.Keys <= before.Keys;
      SubmapSize(after, before);
    }
  }

  /** A cache of capacity zero behaves as one of capacity one. */
  function Capacity(maxSize: nat): nat {
    if maxSize == 0 then 1 else maxSize
  }

  lemma {:induction false} StampedRun<T(!new)>(maxSize: nat, defaultTtl: nat, ops: seq<Timed<T>>,
                                               states: seq<Data<T>>, i: nat, later: int)
    requires IsRun(maxSize, defaultTtl, ops, states) && StrictClock(ops) && i <= |ops|
    requires i > 0 ==> ops[i - 1].at < later
    ensures Stamped(states[i], later)
  {
    if i > 0 {
      StampedRun(maxSize, defaultTtl, ops, states, i - 1, ops[i - 1].at);
      assert Next(maxSize, defaultTtl, states[i - 1], ops[i - 1], states[i]);
      StampedNext(maxSize, defaultTtl, states[i - 1], ops[i - 1], states[i], later);
    }
  }

  /** Over every run with a strictly advancing clock the cache never outgrows its capacity. */
  lemma {:induction false} NeverOutgrowsCapacity<T(!new)>(maxSize: nat, defaultTtl: nat, ops: seq<Timed<T>>,
                                                          states: seq<Data<T>>, i: nat)
    requires IsRun(maxSize, defaultTtl, ops, states) && StrictClock(ops) && i <= |ops|
    ensures |states[i]| <= Capacity(maxSize)
  {
    if i > 0 {
      NeverOutgrowsCapacity(maxSize, defaultTtl, ops, states, i - 1);
      StampedRun(maxSize, defaultTtl, ops, states, i - 1, ops[i - 1].at);
      assert Next(maxSize, defaultTtl, states[i - 1], ops[i - 1], states[i]);
      SizeNext(maxSize, defaultTtl, states[i - 1], ops[i - 1], states[i]);
    }
  }

  // ----- Inclusion --------------------------------------------------------------------------------

  /** The larger cache holds every entry of the smaller one, entry for entry, and at most one more. */
  ghost predicate Includes<T>(large: Data<T>, small: Data<T>) {
    && (forall k :: k in small ==> k in large && large[k] == small[k])
    && forall x, y :: x in large && y in large && x !in small && y !in small ==> x == y
  }

  lemma IncludedSizes<T>(large: Data<T>, small: Data<T>)
    requires Includes(large, small)
    ensures |small| <= |large| <= |small| + 1
    ensures |large| == |small| ==> large == small
  {
    SubmapSize(small, large);
    var extra := large.Keys - small.Keys;
    assert large.Keys == small.Keys + extra;
    if x :| x in extra {
      assert extra == {x};
    }
  }

  /** Where the two caches tell the least recently used entry differently, it is the extra one. */
  lemma SameLru<T>(large: Data<T>, small: Data<T>, x: string, y: string, now: int)
    requires Includes(large, small) && Stamped(large, now)
    requires IsLru(small, x, now) && IsLru(large, y, now)
    ensures y in small ==> x == y
  {
  }

  lemma IncludesWithout<T>(large: Data<T>, small: Data<T>, x: string, y: string)
    requires Includes(large, small) && x in small && y in large && (y in small ==> x == y)
    ensures Includes(large - {y}, small - {x})
  {
  }

  lemma IncludesNothing<T>(large: Data<T>, small: Data<T>, y: string)
    requires Includes(large, small) && small == map[] && y in large
    ensures Includes(large - {y}, small)
  {
  }

  lemma IncludesInsert<T>(large: Data<T>, small: Data<T>, key: string, e: Entry<T>)
    requires Includes(large, small)
    ensures Includes(large[key := e], small[key := e])
  {
  }

  lemma IncludesSwap<T>(large: Data<T>, small: Data<T>, key: string, x: string, e: Entry<T>)
    requires Includes(large, small) && key in large && key !in small && x in small
    ensures Includes(large[key := e], (small - {x})[key := e])
  {
  }

  /** With all accesses in the past, a cache that is not empty does evict. */
  lemma Evicted<T(!new)>(data: Data<T>, after: Data<T>, now: int) returns (key: string)
    requires Evicts(data, after, now) && Stamped(data, now) && data != map[]
    ensures key in data && IsLru(data, key, now) && after == data - {key}
  {
    EvictionShrinks(data, after, now);
    key :| IsLru(data, key, now) && after == data - {key};
  }

  lemma StampedPart<T>(large: Data<T>, small: Data<T>, now: int)
    requires Includes(large, small) && Stamped(large, now)
    ensures Stamped(small, now)
  {
  }

  /** Both caches are full: each evicts its least recently used entry. */
  lemma EvictionsInclude<T(!new)>(large: Data<T>, small: Data<T>, large': Data<T>, small': Data<T>, now: int)
    requires Includes(large, small) && Stamped(large, now) && large != map[]
    requires Evicts(large, large', now) && Evicts(small, small', now)
    ensures Includes(large', small')
  {
    var y := Evicted(large, large', now);
    if small == map[] {
      assert small' == small;
      hide *;
      IncludesNothing(large, small, y);
    } else {
      hide *;
      StampedPart(large, small, now);
      var x := Evicted(small, small', now);
      SameLru(large, small, x, y, now);
      IncludesWithout(large, small, x, y);
    }
  }

  /** Only the smaller cache is full: it then has the same entries as the larger one, before it evicts. */
  lemma EvictionIncluded<T(!new)>(data: Data<T>, after: Data<T>, now: int)
    requires Evicts(data, after, now)
    ensures Includes(data, after)
  {
  }

  lemma RoomIncludes<T(!new)>(maxSize: nat, large: Data<T>, small: Data<T>, key: string, large': Data<T>,
                              small': Data<T>, now: int)
    requires Includes(large, small) && Stamped(large, now) && key !in large
    requires MakesRoom(maxSize, small, key, small', now) && MakesRoom(maxSize + 1, large, key, large', now)
    ensures Includes(large', small')
  {
    assert key !in small;
    IncludedSizes(large, small);
    hide Evicts, Includes, Stamped;
    if |small| >= maxSize {
      if |large| >= maxSize + 1 {
        EvictionsInclude(large, small, large', small', now);
      } else {
        EvictionIncluded(small, small', now);
      }
    }
  }

  /** When the key is the one entry only the larger cache holds, setting it brings the caches together
      but for what the smaller one evicts. */
  lemma RoomForExtra<T(!new)>(maxSize: nat, large: Data<T>, small: Data<T>, key: string, small': Data<T>, e: Entry<T>,
                              now: int)
    requires Includes(large, small) && Stamped(large, now) && key in large && key !in small
    requires MakesRoom(maxSize, small, key, small', now)
    ensures Includes(large[key := e], small'[key := e])
  {
    assert Stamped(small, now);
    if |small| >= maxSize && small != map[] {
      EvictionShrinks(small, small', now);
      var x :| IsLru(small, x, now) && small' == small - {x};
      IncludesSwap(large, small, key, x, e);
    } else {
      assert small' == small by {
        if |small| >= maxSize {
          EvictionShrinks(small, small', now);
        }
      }
      IncludesInsert(large, small, key, e);
    }
  }

  lemma SetIncludes<T(!new)>(maxSize: nat, large: Data<T>, small: Data<T>, key: string, value: T, ttl: Option<nat>,
                             now: int, large': Data<T>, small': Data<T>)
    requires Includes(large, small) && Stamped(large, now)
    requires Sets(maxSize, small, key, value, ttl, now, small')
    requires Sets(maxSize + 1, large, key, value, ttl, now, large')
    ensures Includes(large', small')
  {
    var e := NewEntry(value, ttl, now);
    var roomS :| MakesRoom(maxSize, small, key, roomS, now) && small' == roomS[key := e];
    var roomL :| MakesRoom(maxSize + 1, large, key, roomL, now) && large' == roomL[key := e];
    hide Evicts;
    if key !in large {
      RoomIncludes(maxSize, large, small, key, roomL, roomS, now);
      hide Includes;
      IncludesInsert(roomL, roomS, key, e);
    } else {
      assert roomL == large;
      if key !in small {
        RoomForExtra(maxSize, large, small, key, roomS, e, now);
      } else {
        IncludesInsert(large, small, key, e);
      }
    }
  }

  /** One operation on caches of capacity k and k + 1 keeps the inclusion. */
  lemma NextIncludes<T(!new)>(maxSize: nat, defaultTtl: nat, large: Data<T>, small: Data<T>, t: Timed<T>,
                              large': Data<T>, small': Data<T>)
    requires Includes(large, small) && Stamped(large, t.at)
    requires Next(maxSize, defaultTtl, small, t, small') && Next(maxSize + 1, defaultTtl, large, t, large')
    ensures Includes(large', small')
  {
    match t.op
    case Set(key, value, ttl) =>
      SetIncludes(maxSize, large, small, key, value, ttl.Or(Some(defaultTtl)), t.at, large', small');
    case _ =>
  }

  /** LRU inclusion: run the same operations on caches of capacity k and k + 1, resolving every tie and
      iteration order as you like; at every moment the larger cache holds every entry of the smaller one,
      with the same value, expiry and access times, and at most one more. */
  lemma {:induction false} LargerCacheIncludes<T(!new)>(maxSize: nat, defaultTtl: nat, ops: seq<Timed<T>>,
                                                        small: seq<Data<T>>, large: seq<Data<T>>, i: nat)
    requires StrictClock(ops) && i <= |ops|
    requires IsRun(maxSize, defaultTtl, ops, small) && IsRun(maxSize + 1, defaultTtl, ops, large)
    ensures Includes(large[i], small[i])
  {
    if i > 0 {
      LargerCacheIncludes(maxSize, defaultTtl, ops, small, large, i - 1);
      StampedRun(maxSize + 1, defaultTtl, ops, large, i - 1, ops[i - 1].at);
      assert Next(maxSize, defaultTtl, small[i - 1], ops[i - 1], small[i]);
      assert Next(maxSize + 1, defaultTtl, large[i - 1], ops[i - 1], large[i]);
      NextIncludes(maxSize, defaultTtl, large[i - 1], small[i - 1], ops[i - 1], large[i], small[i]);
    }
  }

  // ----- Any two capacities -----------------------------------------------------------------------

  /** Every run of operations can be played on a cache of any capacity. */
  lemma {:induction false} RunExists<T(!new)>(maxSize: nat, defaultTtl: nat, ops: seq<Timed<T>>)
    returns (states: seq<Data<T>>)
    ensures IsRun(maxSize, defaultTtl, ops, states)
  {
    if ops == [] {
      states := [map[]];
    } else {
      var n := |ops| - 1;
      var front := RunExists(maxSize, defaultTtl, ops[..n]);
      var after := NextExists(maxSize, defaultTtl, front[n], ops[n]);
      states := front + [after];
      forall i | 0 <= i < |ops|
        ensures Next(maxSize, defaultTtl, states[i], ops[i], states[i + 1])
      {
        if i < n {
          assert Next(maxSize, defaultTtl, front[i], ops[..n][i], front[i + 1]);
        }
      }
    }
  }

  lemma NextExists<T(!new)>(maxSize: nat, defaultTtl: nat, before: Data<T>, t: Timed<T>) returns (after: Data<T>)
    ensures Next(maxSize, defaultTtl, before, t, after)
  {
    match t.op
    case Get(key) => after := AfterGet(before, key, t.at);
    case Delete(key) => after := before - {key};
    case Clear => after := map[];
    case Cleanup => after := Unexpired(before, t.at);
    case Set(key, value, ttl) =>
      var room := before;
      if |before| >= maxSize && key !in before {
        room := EvictionExists(before, t.at);
      }
      assert MakesRoom(maxSize, before, key, room, t.at);
      after := room[key := NewEntry(value, ttl.Or(Some(defaultTtl)), t.at)];
  }

  lemma EvictionExists<T(!new)>(before: Data<T>, now: int) returns (after: Data<T>)
    ensures Evicts(before, after, now)
  {
    if k :| k in before && before[k].lastAccessed < now {
      var key := OldestExists(before, before.Keys, k);
      assert IsLru(before, key, now);
      after := before - {key};
    } else {
      after := before;
    }
  }

  lemma {:induction false} OldestExists<T>(data: Data<T>, keys: set<string>, some: string) returns (key: string)
    requires some in keys && keys <= data.Keys
    ensures key in keys && forall k :: k in keys ==> data[key].lastAccessed <= data[k].lastAccessed
    decreases keys
  {
    key := some;
    if other :| other in keys && data[other].lastAccessed < data[some].lastAccessed {
      key := OldestExists(data, keys - {some}, other);
    }
  }

  /** Enlarging `max_size`, by any amount, never turns a hit into a miss nor changes what a hit returns. */
  lemma {:induction false} EnlargingKeepsHits<T(!new)>(smaller: nat, larger: nat, defaultTtl: nat, ops: seq<Timed<T>>,
                                                       small: seq<Data<T>>, large: seq<Data<T>>, i: nat,
                                                       key: string, now: int)
    requires StrictClock(ops) && i <= |ops| && smaller <= larger
    requires IsRun(smaller, defaultTtl, ops, small) && IsRun(larger, defaultTtl, ops, large)
    requires Got(small[i], key, now).Some? && (i > 0 ==> ops[i - 1].at < now)
    ensures Got(large[i], key, now) == Got(small[i], key, now)
    decreases larger - smaller
  {
    if smaller == larger {
      SameRuns(smaller, defaultTtl, ops, small, large, i);
    } else {
      var middle := RunExists(smaller + 1, defaultTtl, ops);
      LargerCacheIncludes(smaller, defaultTtl, ops, small, middle, i);
      EnlargingKeepsHits(smaller + 1, larger, defaultTtl, ops, middle, large, i, key, now);
    }
  }

  /** With a strictly advancing clock the operations determine the contents. */
  lemma {:induction false} SameRuns<T(!new)>(maxSize: nat, defaultTtl: nat, ops: seq<Timed<T>>,
                                             a: seq<Data<T>>, b: seq<Data<T>>, i: nat)
    requires StrictClock(ops) && i <= |ops|
    requires IsRun(maxSize, defaultTtl, ops, a) && IsRun(maxSize, defaultTtl, ops, b)
    ensures a[i] == b[i]
  {
    if i > 0 {
      SameRuns(maxSize, defaultTtl, ops, a, b, i - 1);
      StampedRun(maxSize, defaultTtl, ops, a, i - 1, ops[i - 1].at);
      assert Next(maxSize, defaultTtl, a[i - 1], ops[i - 1], a[i]);
      assert Next(maxSize, defaultTtl, b[i - 1], ops[i - 1], b[i]);
      NextDetermined(maxSize, defaultTtl, a[i - 1], ops[i - 1], a[i], b[i]);
    }
  }

  lemma NextDetermined<T(!new)>(maxSize: nat, defaultTtl: nat, before: Data<T>, t: Timed<T>, a: Data<T>, b: Data<T>)
    requires Stamped(before, t.at)
    requires Next(maxSize, defaultTtl, before, t, a) && Next(maxSize, defaultTtl, before, t, b)
    ensures a == b
  {
    if t.op.Set? {
      var key, e := t.op.key, NewEntry(t.op.value, t.op.ttl.Or(Some(defaultTtl)), t.at);
      var roomA :| MakesRoom(maxSize, before, key, roomA, t.at) && a == roomA[key := e];
      var roomB :| MakesRoom(maxSize, before, key, roomB, t.at) && b == roomB[key := e];
      if |before| >= maxSize && key !in before {
        EvictionShrinks(before, roomA, t.at);
        EvictionShrinks(before, roomB, t.at);
      }
    }
  }

  // ----- The exact condition for the size bound ----------------------------------------------------

  /** No entry was accessed before `now`, so that eviction finds nothing to take. */
  ghost predicate OutOfReach<T>(data: Data<T>, now: int) {
    forall k :: k in data ==> data[k].lastAccessed >= now
  }

  /** Setting a new key on a full cache makes it grow exactly when every entry was accessed at the very instant
      that the eviction reads, or later; otherwise it keeps its size. */
  lemma FullSetGrowsIffTied<T(!new)>(maxSize: nat, before: Data<T>, key: string, value: T, ttl: Option<nat>, now: int,
                                     after: Data<T>)
    requires Sets(maxSize, before, key, value, ttl, now, after) && key !in before && |before| >= maxSize
    ensures |after| == |before| + 1 <==> OutOfReach(before, now)
    ensures |after| == |before| <==> !OutOfReach(before, now)
  {
    var room :| MakesRoom(maxSize, before, key, room, now) && after == room[key := NewEntry(value, ttl, now)];
    assert after.Keys == room.Keys + {key};
    hide OutOfReach;
    EvictsIffInReach(before, room, now);
    hide Evicts;
  }

  lemma EvictsIffInReach<T(!new)>(before: Data<T>, room: Data<T>, now: int)
    requires Evicts(before, room, now)
    ensures room.Keys <= before.Keys
    ensures |room| == if OutOfReach(before, now) then |before| else |before| - 1
  {
    if !OutOfReach(before, now) {
      var key: string :| IsLru(before, key, now) && room == before - {key};
      assert room.Keys == before.Keys - {key};
    }
  }

  /** The operation sets a new key on a cache that is full and holds nothing that eviction can take. */
  ghost predicate TiedSet<T>(maxSize: nat, before: Data<T>, t: Timed<T>) {
    && t.op.Set? && t.op.key !in before
    && |before| >= Capacity(maxSize) && OutOfReach(before, t.at)
  }

  lemma NextWithinIffNotTied<T(!new)>(maxSize: nat, defaultTtl: nat, before: Data<T>, t: Timed<T>, after: Data<T>)
    requires Next(maxSize, defaultTtl, before, t, after) && |before| <= Capacity(maxSize)
    ensures |after| <= Capacity(maxSize) <==> !TiedSet(maxSize, before, t)
  {
    if t.op.Set? {
      NextSetWithin(maxSize, before, t.op.key, t.op.value, t.op.ttl.Or(Some(defaultTtl)), t.at, after);
    } else {
      assert after.Keys <= before.Keys;
      SubmapSize(after, before);
    }
  }

  lemma NextSetWithin<T(!new)>(maxSize: nat, before: Data<T>, key: string, value: T, ttl: Option<nat>, now: int,
                               after: Data<T>)
    requires Sets(maxSize, before, key, value, ttl, now, after) && |before| <= Capacity(maxSize)
    ensures |after| <= Capacity(maxSize) <==>
            !(key !in before && |before| >= Capacity(maxSize) && OutOfReach(before, now))
  {
    if key !in before && |before| >= maxSize {
      FullSetGrowsIffTied(maxSize, before, key, value, ttl, now, after);
    } else {
      var room :| MakesRoom(maxSize, before, key, room, now) && after == room[key := NewEntry(value, ttl, now)];
      assert after.Keys == before.Keys + {key};
      if key in before {
        assert after.Keys == before.Keys;
      }
    }
  }

  ghost predicate WithinUpTo<T>(maxSize: nat, states: seq<Data<T>>, n: nat)
    requires n < |states|
  {
    forall i :: 0 <= i <= n ==> |states[i]| <= Capacity(maxSize)
  }

  ghost predicate UntiedUpTo<T>(maxSize: nat, ops: seq<Timed<T>>, states: seq<Data<T>>, n: nat)
    requires n <= |ops| && n < |states|
  {
    forall i :: 0 <= i < n ==> !TiedSet(maxSize, states[i], ops[i])
  }

  /** On any run, whatever its clock, the cache keeps within its capacity exactly as long as no key is set while
      the cache is full and tied with the clock. */
  lemma {:induction false} CapacityKeptIffNoTiedSet<T(!new)>(maxSize: nat, defaultTtl: nat, ops: seq<Timed<T>>,
                                                             states: seq<Data<T>>, n: nat)
    requires IsRun(maxSize, defaultTtl, ops, states) && n <= |ops|
    ensures WithinUpTo(maxSize, states, n) <==> UntiedUpTo(maxSize, ops, states, n)
  {
    if n > 0 {
      CapacityKeptIffNoTiedSet(maxSize, defaultTtl, ops, states, n - 1);
      assert Next(maxSize, defaultTtl, states[n - 1], ops[n - 1], states[n]);
      hide Next, TiedSet;
      if WithinUpTo(maxSize, states, n - 1) {
        NextWithinIffNotTied(maxSize, defaultTtl, states[n - 1], ops[n - 1], states[n]);
      }
    }
  }

  // ----- Without any bound --------------------------------------------------------------------------

  /** Setting the first n keys at one instant, in a run of a cache that keeps them all. */
  ghost predicate TiedRun<T(!new)>(maxSize: nat, defaultTtl: nat, value: T, now: int, n: nat,
                                   ops: seq<Timed<T>>, states: seq<Data<T>>) {
    && |ops| == n && IsRun(maxSize, defaultTtl, ops, states)
    && (forall i :: 0 <= i < n ==> ops[i] == Timed(Set(Key(i), value, None), now))
    && states[n].Keys == FirstKeys(n) && OutOfReach(states[n], now)
  }

  lemma TiedRunExtended<T(!new)>(maxSize: nat, defaultTtl: nat, value: T, now: int, n: nat,
                                 ops: seq<Timed<T>>, states: seq<Data<T>>) returns (after: Data<T>)
    requires TiedRun(maxSize, defaultTtl, value, now, n, ops, states)
    ensures TiedRun(maxSize, defaultTtl, value, now, n + 1, ops + [Timed(Set(Key(n), value, None), now)],
                    states + [after])
  {
    hide Next, OutOfReach, Key, FirstKeys;
    FirstKeysSize(n);
    after := NewKeySet(maxSize, defaultTtl, states[n], Key(n), value, now);
    RunExtended(maxSize, defaultTtl, ops, states, Timed(Set(Key(n), value, None), now), after);
  }

  /** At one instant any number of keys fits into a cache of any capacity. */
  lemma {:induction false} TiedClockOutgrows<T(!new)>(maxSize: nat, defaultTtl: nat, value: T, now: int, n: nat)
    returns (ops: seq<Timed<T>>, states: seq<Data<T>>)
    ensures TiedRun(maxSize, defaultTtl, value, now, n, ops, states) && |states[n]| == n
  {
    if n == 0 {
      ops, states := [], [map[]];
      assert FirstKeys(0) == {};
    } else {
      ops, states := TiedClockOutgrows(maxSize, defaultTtl, value, now, n - 1);
      var after := TiedRunExtended(maxSize, defaultTtl, value, now, n - 1, ops, states);
      ops, states := ops + [Timed(Set(Key(n - 1), value, None), now)], states + [after];
    }
    assert TiedRun(maxSize, defaultTtl, value, now, n, ops, states);
    TiedRunSize(maxSize, defaultTtl, value, now, n, ops, states);
  }

  lemma TiedRunSize<T(!new)>(maxSize: nat, defaultTtl: nat, value: T, now: int, n: nat,
                             ops: seq<Timed<T>>, states: seq<Data<T>>)
    requires TiedRun(maxSize, defaultTtl, value, now, n, ops, states)
    ensures |states| == n + 1 && |states[n]| == n
  {
    hide FirstKeys;
    FirstKeysSize(n);
    assert |states[n]| == |states[n].Keys|;
  }

  lemma NewKeySet<T(!new)>(maxSize: nat, defaultTtl: nat, data: Data<T>, key: string, value: T, now: int)
    returns (after: Data<T>)
    requires key !in data && OutOfReach(data, now)
    ensures Next(maxSize, defaultTtl, data, Timed(Set(key, value, None), now), after)
    ensures after.Keys == data.Keys + {key} && |after| == |data| + 1 && OutOfReach(after, now)
  {
    after := data[key := NewEntry(value, Some(defaultTtl), now)];
    assert MakesRoom(maxSize, data, key, data, now);
    assert after.Keys == data.Keys + {key};
  }

  lemma RunExtended<T(!new)>(maxSize: nat, defaultTtl: nat, ops: seq<Timed<T>>, states: seq<Data<T>>, t: Timed<T>,
                             after: Data<T>)
    requires IsRun(maxSize, defaultTtl, ops, states) && Next(maxSize, defaultTtl, states[|ops|], t, after)
    ensures IsRun(maxSize, defaultTtl, ops + [t], states + [after])
  {
    forall i | 0 <= i < |ops| + 1
      ensures Next(maxSize, defaultTtl, (states + [after])[i], (ops + [t])[i], (states + [after])[i + 1])
    {
      if i < |ops| {
        assert Next(maxSize, defaultTtl, states[i], ops[i], states[i + 1]);
      }
    }
  }
}
