/** The in-memory LRU and TTL cache of src/cache/memory.rs.

    Instants and durations are integers counting nanoseconds.  Every operation holds the lock from start
    to end; `now` is the instant it reads meanwhile.  The map is iterated in an unspecified order, so
    where several entries tie for the oldest access any of them may be evicted. */
module MemoryCache {
  import opened Collections
  import opened Wrappers

  datatype Entry<+T> = Entry(value: T, createdAt: int, expiresAt: Option<int>, accessCount: nat, lastAccessed: int) {
    predicate IsExpired(now: int) {
      expiresAt.Some? && now > expiresAt.value
    }

    function Accessed(now: int): Entry<T> {
      this.(accessCount := accessCount + 1, lastAccessed := now)
    }
  }

  type Data<T> = map<string, Entry<T>>

  function NewEntry<T>(value: T, ttl: Option<nat>, now: int): Entry<T> {
    Entry(value, now, if ttl.Some? then Some(now + ttl.value) else None, 0, now)
  }

  // ----- What the operations do -------------------------------------------------------------------

  /** `key` is an entry accessed before `now`, and no entry was accessed earlier. */
  ghost predicate IsLru<T>(data: Data<T>, key: string, now: int) {
    && key in data
    && data[key].lastAccessed < now
    && forall k :: k in data ==> data[key].lastAccessed <= data[k].lastAccessed
  }

  /** Eviction drops a least recently used entry; entries accessed at or after `now` are out of its reach. */
  ghost predicate Evicts<T(!new)>(before: Data<T>, after: Data<T>, now: int) {
    || (after == before && forall k :: k in before ==> before[k].lastAccessed >= now)
    || exists key :: IsLru(before, key, now) && after == before - {key}
  }

  ghost predicate MakesRoom<T(!new)>(maxSize: nat, before: Data<T>, key: string, after: Data<T>, now: int) {
    if |before| >= maxSize && key !in before then Evicts(before, after, now) else after == before
  }

  ghost predicate Sets<T(!new)>(maxSize: nat, before: Data<T>, key: string, value: T, ttl: Option<nat>, now: int,
                                after: Data<T>) {
    exists room :: MakesRoom(maxSize, before, key, room, now) && after == room[key := NewEntry(value, ttl, now)]
  }

  /** The contents before, between and after setting the items one by one. */
  ghost predicate SetsAll<T(!new)>(maxSize: nat, items: seq<(string, T)>, ttl: Option<nat>, times: seq<int>,
                                   states: seq<Data<T>>) {
    && |times| == |items| && |states| == |items| + 1
    && forall i :: 0 <= i < |items| ==>
         Sets(maxSize, states[i], items[i].0, items[i].1, ttl, times[i], states[i + 1])
  }

  function Got<T>(data: Data<T>, key: string, now: int): Option<T> {
    if key in data && !data[key].IsExpired(now) then Some(data[key].value) else None
  }

  function AfterGet<T>(data: Data<T>, key: string, now: int): Data<T> {
    if key !in data then data
    else if data[key].IsExpired(now) then data - {key}
    else data[key := data[key].Accessed(now)]
  }

  function Unexpired<T>(data: Data<T>, now: int): Data<T> {
    map k | k in data && !data[k].IsExpired(now) :: data[k]
  }

  class MemoryCache<T(!new, ==)> {
    var data: Data<T>
    const maxSize: nat
    const defaultTtl: nat

    constructor (maxSize: nat, defaultTtl: nat)
      ensures this.maxSize == maxSize && this.defaultTtl == defaultTtl && data == map[]
    {
      this.maxSize := maxSize;
      this.defaultTtl := defaultTtl;
      data := map[];
    }

    method Get(key: string, now: int) returns (result: Option<T>)
      modifies this
      ensures result == Got(old(data), key, now)
      ensures data == AfterGet(old(data), key, now)
    {
      if key in data {
        if data[key].IsExpired(now) {
          data := data - {key};
          return None;
        }
        data := data[key := data[key].Accessed(now)];
        return Some(data[key].value);
      }
      return None;
    }

    method EvictLru(now: int)
      modifies this
      ensures Evicts(old(data), data, now)
    {
      if data == map[] {
        return;
      }
      var lruKey: Option<string> := None;
      var oldestAccess := now;
      var unseen := data.Keys;
      while unseen != {}
        invariant unseen <= data.Keys && data == old(data)
        invariant forall k :: k in data && k !in unseen ==> data[k].lastAccessed >= oldestAccess
        invariant lruKey.None? ==> oldestAccess == now
        invariant lruKey.Some? ==>
                    lruKey.value in data && data[lruKey.value].lastAccessed == oldestAccess && oldestAccess < now
        decreases unseen
      {
        var key :| key in unseen;
        unseen := unseen - {key};
        if data[key].lastAccessed < oldestAccess {
          oldestAccess := data[key].lastAccessed;
          lruKey := Some(key);
        }
      }
      if lruKey.Some? {
        assert IsLru(data, lruKey.value, now);
        data := data - {lruKey.value};
      }
    }

    method Set(key: string, value: T, ttl: Option<nat>, now: int)
      modifies this
      ensures Sets(maxSize, old(data), key, value, ttl.Or(Some(defaultTtl)), now, data)
    {
      if |data| >= maxSize && key !in data {
        EvictLru(now);
      }
      assert MakesRoom(maxSize, old(data), key, data, now);
      data := data[key := NewEntry(value, ttl.Or(Some(defaultTtl)), now)];
    }

    /** The items in the order in which their map yields them, with the instants at which their turns come.
        All happens under one lock: it is a run of plain sets that nothing interrupts. */
    method SetMultiple(items: seq<(string, T)>, ttl: Option<nat>, times: seq<int>)
      requires |times| == |items|
      modifies this
      ensures exists states :: SetsAll(maxSize, items, ttl.Or(Some(defaultTtl)), times, states)
                               && states[0] == old(data) && states[|items|] == data
    {
      hide Sets;
      ghost var states := [data];
      for i := 0 to |items|
        invariant |states| == i + 1 && states[0] == old(data) && states[i] == data
        invariant forall j :: 0 <= j < i ==>
                    Sets(maxSize, states[j], items[j].0, items[j].1, ttl.Or(Some(defaultTtl)), times[j], states[j + 1])
      {
        Set(items[i].0, items[i].1, ttl, times[i]);
        states := states + [data];
      }
      assert SetsAll(maxSize, items, ttl.Or(Some(defaultTtl)), times, states);
    }

    method Delete(key: string) returns (deleted: bool)
      modifies this
      ensures deleted == (key in old(data)) && data == old(data) - {key}
    {
      deleted := key in data;
      data := data - {key};
    }

    method Clear()
      modifies this
      ensures data == map[]
    {
      data := map[];
    }

    method CleanupExpired(now: int) returns (removed: nat)
      modifies this
      ensures data == Unexpired(old(data), now) && removed == |old(data)| - |data|
    {
      var kept := Unexpired(data, now);
      SubmapSize(kept, data);
      removed := |data| - |kept|;
      data := kept;
    }
  }
}
