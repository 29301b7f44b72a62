/** What the two-tier cache guarantees over whole runs: which value a hit returns, and for how long. */
module CacheFreshness {
  import opened Keys
  import opened Wrappers
  import opened MemoryCache
  import opened CacheManager

  // ----- Runs ---------------------------------------------------------------------------------

  ghost predicate IsRun<T(!new)>(config: Config, ops: seq<Timed<T>>, states: seq<Tiers<T>>, results: seq<Option<T>>) {
    && |states| == |ops| + 1 && |results| == |ops|
    && states[0] == Tiers(map[], map[])
    && forall i :: 0 <= i < |ops| ==> Next(config, states[i], ops[i], results[i], states[i + 1])
  }

  ghost predicate Ordered<T>(ops: seq<Timed<T>>) {
    forall i, j :: 0 <= i < j < |ops| ==> ops[i].at <= ops[j].at
  }

  /** The `Set` whose value the key should have: the last one, unless a `Delete` or a `Clear` followed it. */
  function LastSet<T>(ops: seq<Timed<T>>, key: string): Option<Timed<T>> {
    if ops == [] then None else
      var t := ops[|ops| - 1];
      match t.op
      case Set(k, _, _) => if k == key then Some(t) else LastSet(ops[..|ops| - 1], key)
      case Delete(k) => if k == key then None else LastSet(ops[..|ops| - 1], key)
      case Clear => None
      case Get(_) => LastSet(ops[..|ops| - 1], key)
      case Cleanup => LastSet(ops[..|ops| - 1], key)
  }

  lemma {:induction false} LastSetIsSet<T>(ops: seq<Timed<T>>, key: string)
    ensures LastSet(ops, key).Some? ==> LastSet(ops, key).value.op.Set? && LastSet(ops, key).value in ops
  {
    if ops != [] {
      LastSetIsSet(ops[..|ops| - 1], key);
    }
  }

  /** The time to live that is asked of Redis, before it is cut down to whole seconds. */
  function RemoteTtl(config: Config, ttl: Option<nat>): nat {
    match ttl
    case None => config.redisDefaultTtl
    case Some(own) => own
  }

  /** The latest instant at which the value of a `Set` may still be served: it lives in memory for its own
      time to live, and a hit in the last instant before it ends in Redis gives it a fresh default time to
      live in memory. */
  function ServedUntil<T>(config: Config, set_: Timed<T>): int
    requires set_.op.Set?
  {
    var local := match set_.op.ttl case None => config.defaultTtl case Some(own) => own;
    var asked := RemoteTtl(config, set_.op.ttl);
    var remote := asked - asked % 1_000_000_000 - 1 + config.defaultTtl;
    set_.at + if config.useRedis && remote > local then remote else local
  }

  /** The server takes the time to live: it makes at least a second. */
  predicate TakenByRedis(config: Config, ttl: Option<nat>) {
    config.useRedis ==> RemoteTtl(config, ttl) >= 1_000_000_000
  }

  ghost predicate AllTaken<T>(config: Config, ops: seq<Timed<T>>) {
    forall i :: 0 <= i < |ops| && ops[i].op.Set? ==> TakenByRedis(config, ops[i].op.ttl)
  }

  /** What a tier may hold under a key: the last value set, for no longer than allowed. */
  ghost predicate LocalSound<T>(config: Config, last: Option<Timed<T>>, e: Entry<T>) {
    && last.Some? && last.value.op.Set?
    && e.value == last.value.op.value
    && e.expiresAt.Some? && e.expiresAt.value <= ServedUntil(config, last.value)
  }

  ghost predicate RemoteSound<T>(config: Config, last: Option<Timed<T>>, e: Remote<T>) {
    && last.Some? && last.value.op.Set?
    && e.value == last.value.op.value
    && e.until <= last.value.at + config.WholeSeconds(last.value.op.ttl) * SECOND
  }

  ghost predicate Sound<T>(config: Config, ops: seq<Timed<T>>, tiers: Tiers<T>) {
    && (forall k :: k in tiers.memory ==> LocalSound(config, LastSet(ops, k), tiers.memory[k]))
    && (config.useRedis ==> forall k :: k in tiers.server ==> RemoteSound(config, LastSet(ops, k), tiers.server[k]))
  }

  lemma SetsEntries<T(!new)>(maxSize: nat, before: Data<T>, key: string, value: T, ttl: Option<nat>, now: int,
                             after: Data<T>)
    requires Sets(maxSize, before, key, value, ttl, now, after)
    ensures key in after && after[key] == NewEntry(value, ttl, now)
    ensures forall k :: k in after && k != key ==> k in before && after[k] == before[k]
  {
  }

  lemma GetEntries<T>(before: Data<T>, key: string, now: int)
    ensures forall k :: k in AfterGet(before, key, now) ==>
              k in before && AfterGet(before, key, now)[k].value == before[k].value
              && AfterGet(before, key, now)[k].expiresAt == before[k].expiresAt
  {
  }

  lemma LastSetAppend<T>(ops: seq<Timed<T>>, t: Timed<T>, key: string)
    ensures LastSet(ops + [t], key) ==
            match t.op
            case Set(k, _, _) => if k == key then Some(t) else LastSet(ops, key)
            case Delete(k) => if k == key then None else LastSet(ops, key)
            case Clear => None
            case Get(_) => LastSet(ops, key)
            case Cleanup => LastSet(ops, key)
  {
    assert (ops + [t])[..|ops|] == ops;
  }

  /** What a `Get` leaves in memory is sound, be it what was there or the copy of a Redis hit. */
  lemma SoundGet<T(!new)>(config: Config, ops: seq<Timed<T>>, key: string, now: int, before: Tiers<T>,
                             result: Option<T>, after: Tiers<T>, k: string)
    requires Sound(config, ops, before) && GetNext(config, before, key, now, result, after) && k in after.memory
    ensures LocalSound(config, LastSet(ops, k), after.memory[k])
  {
    GetEntries(before.memory, key, now);
    if Got(before.memory, key, now).None? && config.useRedis && RemoteGot(before.server, key, now).Some? {
      var value := RemoteGot(before.server, key, now).value;
      SetsEntries(config.maxSize, AfterGet(before.memory, key, now), key, value, Some(config.defaultTtl), now,
                  after.memory);
      assert RemoteSound(config, LastSet(ops, key), before.server[key]);
    }
  }

  lemma SoundHit<T(!new)>(config: Config, ops: seq<Timed<T>>, key: string, now: int, before: Tiers<T>,
                             result: Option<T>, after: Tiers<T>)
    requires Sound(config, ops, before) && GetNext(config, before, key, now, result, after) && result.Some?
    ensures var last := LastSet(ops, key);
            && last.Some? && last.value.op.Set?
            && result.value == last.value.op.value && now <= ServedUntil(config, last.value)
  {
    if Got(before.memory, key, now).Some? {
      assert LocalSound(config, LastSet(ops, key), before.memory[key]);
    } else {
      assert RemoteSound(config, LastSet(ops, key), before.server[key]);
    }
  }

  lemma SoundNext<T(!new)>(config: Config, ops: seq<Timed<T>>, t: Timed<T>, before: Tiers<T>, result: Option<T>,
                           after: Tiers<T>)
    requires Sound(config, ops, before) && Next(config, before, t, result, after)
    requires t.op.Set? ==> TakenByRedis(config, t.op.ttl)
    ensures Sound(config, ops + [t], after)
  {
    forall k | k in after.memory
      ensures LocalSound(config, LastSet(ops + [t], k), after.memory[k])
    {
      LastSetAppend(ops, t, k);
      match t.op
      case Get(key) =>
        SoundGet(config, ops, key, t.at, before, result, after, k);
      case Set(key, value, ttl) =>
        SetsEntries(config.maxSize, before.memory, key, value, Some(config.MemoryTtl(ttl)), t.at, after.memory);
      case Delete(_) =>
      case Clear =>
      case Cleanup =>
    }
    forall k | config.useRedis && k in after.server
      ensures RemoteSound(config, LastSet(ops + [t], k), after.server[k])
    {
      LastSetAppend(ops, t, k);
    }
  }

  lemma {:induction false} SoundRun<T(!new)>(config: Config, ops: seq<Timed<T>>, states: seq<Tiers<T>>,
                                             results: seq<Option<T>>, i: nat)
    requires IsRun(config, ops, states, results) && AllTaken(config, ops) && i <= |ops|
    ensures Sound(config, ops[..i], states[i])
  {
    if i > 0 {
      SoundRun(config, ops, states, results, i - 1);
      assert ops[..i] == ops[..i - 1] + [ops[i - 1]];
      assert Next(config, states[i - 1], ops[i - 1], results[i - 1], states[i]);
      SoundNext(config, ops[..i - 1], ops[i - 1], states[i - 1], results[i - 1], states[i]);
    }
  }

  /** A `Get` that returns a value returns the one set last, and not after its time has run out. */
  ghost predicate ServesCurrent<T>(config: Config, ops: seq<Timed<T>>, results: seq<Option<T>>, i: nat)
    requires i < |ops| == |results|
  {
    ops[i].op.Get? && results[i].Some? ==>
      var last := LastSet(ops[..i], ops[i].op.key);
      && last.Some? && last.value.op.Set?
      && results[i].value == last.value.op.value
      && ops[i].at <= ServedUntil(config, last.value)
  }

  /** Freshness: as long as Redis takes every time to live, whatever is evicted, cleaned up or refilled
      in between, every hit returns the value set last and no value outlives `ServedUntil`. */
  lemma HitsAreCurrent<T(!new)>(config: Config, ops: seq<Timed<T>>, states: seq<Tiers<T>>, results: seq<Option<T>>,
                                i: nat)
    requires IsRun(config, ops, states, results) && AllTaken(config, ops) && i < |ops|
    ensures ServesCurrent(config, ops, results, i)
  {
    SoundRun(config, ops, states, results, i);
    assert Next(config, states[i], ops[i], results[i], states[i + 1]);
    if ops[i].op.Get? && results[i].Some? {
      SoundHit(config, ops[..i], ops[i].op.key, ops[i].at, states[i], results[i], states[i + 1]);
    }
  }

  // ----- The bound is met ------------------------------------------------------------------------

  function Stored<T>(value: T, at: int, ttl: nat): Entry<T> {
    Entry(value, at, Some(at + ttl), 0, at)
  }

  lemma SetsOnEmpty<T(!new)>(maxSize: nat, key: string, value: T, ttl: nat, now: int)
    ensures Sets(maxSize, map[], key, value, Some(ttl), now, map[key := Stored(value, now, ttl)])
  {
    var none: Data<T> := map[];
    assert MakesRoom(maxSize, none, key, none, now);
    assert none[key := NewEntry(value, Some(ttl), now)] == map[key := Stored(value, now, ttl)];
  }

  lemma SetsOverSame<T(!new)>(maxSize: nat, key: string, e: Entry<T>, value: T, ttl: nat, now: int)
    ensures Sets(maxSize, map[key := e], key, value, Some(ttl), now, map[key := Stored(value, now, ttl)])
  {
    var one: Data<T> := map[key := e];
    assert MakesRoom(maxSize, one, key, one, now);
    assert one[key := NewEntry(value, Some(ttl), now)] == map[key := Stored(value, now, ttl)];
  }

  lemma SetStep<T(!new)>(config: Config, before: Tiers<T>, key: string, value: T, ttl: Option<nat>, now: int,
                         memory: Data<T>)
    requires TakenByRedis(config, ttl)
    requires Sets(config.maxSize, before.memory, key, value, Some(config.MemoryTtl(ttl)), now, memory)
    ensures var server := before.server[key := Remote(value, now + config.WholeSeconds(ttl) * SECOND)];
            Next(config, before, Timed(Set(key, value, ttl), now), None,
                 Tiers(memory, if config.useRedis then server else before.server))
  {
  }

  lemma RefillStep<T(!new)>(config: Config, before: Tiers<T>, key: string, now: int, memory: Data<T>)
    requires config.useRedis && key !in before.memory && RemoteGot(before.server, key, now).Some?
    requires Sets(config.maxSize, before.memory, key, before.server[key].value, Some(config.defaultTtl), now, memory)
    ensures Next(config, before, Timed(Get(key), now), Some(before.server[key].value), before.(memory := memory))
  {
    assert AfterGet(before.memory, key, now) == before.memory;
  }

  lemma HitStep<T(!new)>(config: Config, before: Tiers<T>, key: string, now: int)
    requires key in before.memory && !before.memory[key].IsExpired(now)
    ensures Next(config, before, Timed(Get(key), now), Some(before.memory[key].value),
                 before.(memory := before.memory[key := before.memory[key].Accessed(now)]))
  {
  }

  /** A run that begins by setting the key "a" and has not set or deleted it since. */
  ghost predicate Reaches<T(!new)>(config: Config, ops: seq<Timed<T>>, states: seq<Tiers<T>>, results: seq<Option<T>>,
                                   first: Timed<T>, tiers: Tiers<T>, now: int) {
    && IsRun(config, ops, states, results) && Ordered(ops) && AllTaken(config, ops)
    && ops != [] && ops[0] == first && LastSet(ops, "a") == Some(first)
    && states[|ops|] == tiers && ops[|ops| - 1].at == now
  }

  lemma Extended<T(!new)>(config: Config, ops: seq<Timed<T>>, states: seq<Tiers<T>>, results: seq<Option<T>>,
                          first: Timed<T>, tiers: Tiers<T>, now: int, t: Timed<T>, result: Option<T>, next: Tiers<T>)
    requires Reaches(config, ops, states, results, first, tiers, now)
    requires Next(config, tiers, t, result, next) && now <= t.at
    requires t.op.Get? || (t.op.Set? && t.op.key != "a" && TakenByRedis(config, t.op.ttl))
    ensures Reaches(config, ops + [t], states + [next], results + [result], first, next, t.at)
  {
    hide Next;
    var ops', states', results' := ops + [t], states + [next], results + [result];
    forall i | 0 <= i < |ops'|
      ensures Next(config, states'[i], ops'[i], results'[i], states'[i + 1])
    {
      if i < |ops| {
        assert Next(config, states[i], ops[i], results[i], states[i + 1]);
      }
    }
    assert ops'[..|ops|] == ops;
  }

  /** The first k other keys, set at instant 1. */
  function Others<T>(value: T, ttl: nat, k: nat): Data<T> {
    map key | key in FirstKeys(k) :: Stored(value, 1, ttl)
  }

  function WithA<T>(value: T, ttl: nat, k: nat): Data<T> {
    Others(value, ttl, k)["a" := Stored(value, 0, ttl)]
  }

  function InRedis<T>(value: T, life: nat, k: nat): Server<T> {
    (map key | key in FirstKeys(k) :: Remote(value, 1 + life))["a" := Remote(value, life)]
  }

  lemma OthersKeys<T>(value: T, ttl: nat, k: nat)
    ensures |Others(value, ttl, k)| == k && "a" !in Others(value, ttl, k) && Key(k) !in WithA(value, ttl, k)
    ensures |WithA(value, ttl, k)| == k + 1
  {
    hide FirstKeys, Key;
    FirstKeysSize(k);
    OtherKey(k);
    assert Others(value, ttl, k).Keys == FirstKeys(k);
    assert WithA(value, ttl, k).Keys == FirstKeys(k) + {"a"};
  }

  lemma OthersNext<T>(value: T, ttl: nat, k: nat)
    ensures Others(value, ttl, k + 1) == Others(value, ttl, k)[Key(k) := Stored(value, 1, ttl)]
    ensures Others(value, ttl, k) == Others(value, ttl, k + 1) - {Key(k)}
  {
    hide FirstKeys, Key;
    FirstKeysSize(k);
  }

  lemma OthersSize<T>(value: T, ttl: nat, k: nat)
    ensures |Others(value, ttl, k)| == k && "a" !in Others(value, ttl, k) && Key(k) !in WithA(value, ttl, k)
    ensures |WithA(value, ttl, k)| == k + 1
    ensures Others(value, ttl, k + 1) == Others(value, ttl, k)[Key(k) := Stored(value, 1, ttl)]
    ensures WithA(value, ttl, k + 1) == WithA(value, ttl, k)[Key(k) := Stored(value, 1, ttl)]
    ensures WithA(value, ttl, k) - {"a"} == Others(value, ttl, k) == Others(value, ttl, k + 1) - {Key(k)}
  {
    hide FirstKeys, Key, Others;
    OthersKeys(value, ttl, k);
    OthersNext(value, ttl, k);
    OtherKey(k);
  }

  lemma InRedisNext<T>(value: T, life: nat, k: nat)
    ensures InRedis(value, life, k + 1) == InRedis(value, life, k)[Key(k) := Remote(value, 1 + life)]
  {
    FirstKeysSize(k);
    OtherKey(k);
    hide FirstKeys, Key;
  }

  /** Setting one more key, which fits in, or evicts "a" when the cache is full. */
  lemma SetsOther<T(!new)>(maxSize: nat, value: T, ttl: nat, k: nat)
    ensures k + 1 < maxSize ==>
              Sets(maxSize, WithA(value, ttl, k), Key(k), value, Some(ttl), 1, WithA(value, ttl, k + 1))
    ensures k + 1 >= maxSize ==>
              Sets(maxSize, WithA(value, ttl, k), Key(k), value, Some(ttl), 1, Others(value, ttl, k + 1))
  {
    var before, others := WithA(value, ttl, k), Others(value, ttl, k);
    OthersSize(value, ttl, k);
    assert NewEntry(value, Some(ttl), 1) == Stored(value, 1, ttl);
    if k + 1 < maxSize {
      assert MakesRoom(maxSize, before, Key(k), before, 1);
    } else {
      assert IsLru(before, "a", 1);
      hide Others, WithA, IsLru;
      assert Evicts(before, others, 1);
      assert MakesRoom(maxSize, before, Key(k), others, 1);
    }
  }

  /** A hit in Redis brings "a" back to a full cache. */
  lemma SetsBack<T(!new)>(maxSize: nat, value: T, ttl: nat, k: nat, defaultTtl: nat, now: int)
    requires k + 1 >= maxSize && now > 1
    ensures Sets(maxSize, Others(value, ttl, k + 1), "a", value, Some(defaultTtl), now,
                 Others(value, ttl, k)["a" := Stored(value, now, defaultTtl)])
  {
    hide Others, WithA, IsLru;
    var before, room := Others(value, ttl, k + 1), Others(value, ttl, k);
    OthersSize(value, ttl, k);
    OthersSize(value, ttl, k + 1);
    LastKeyIsLru(value, ttl, k, now);
    assert Evicts(before, room, now);
    assert MakesRoom(maxSize, before, "a", room, now);
    assert NewEntry(value, Some(defaultTtl), now) == Stored(value, now, defaultTtl);
  }

  lemma LastKeyIsLru<T>(value: T, ttl: nat, k: nat, now: int)
    requires now > 1
    ensures IsLru(Others(value, ttl, k + 1), Key(k), now)
  {
    hide Key;
  }

  lemma {:induction false} Filled<T(!new)>(config: Config, value: T, ttl: Option<nat>, k: nat)
    returns (ops: seq<Timed<T>>, states: seq<Tiers<T>>, results: seq<Option<T>>)
    requires config.useRedis && TakenByRedis(config, ttl) && (k == 0 || k < config.maxSize)
    ensures Reaches(config, ops, states, results, Timed(Set("a", value, ttl), 0),
                    Tiers(WithA(value, config.MemoryTtl(ttl), k), InRedis(value, config.WholeSeconds(ttl) * SECOND, k)),
                    if k == 0 then 0 else 1)
  {
    hide Next, Sets, Others, WithA, InRedis;
    var life, local, first := config.WholeSeconds(ttl) * SECOND, config.MemoryTtl(ttl), Timed(Set("a", value, ttl), 0);
    if k == 0 {
      ops, states, results := Begun(config, value, ttl);
      BegunWithA(value, local, life);
    } else {
      ops, states, results := Filled(config, value, ttl, k - 1);
      var before := Tiers(WithA(value, local, k - 1), InRedis(value, life, k - 1));
      var t := Timed(Set(Key(k - 1), value, ttl), 1);
      var after := Tiers(WithA(value, local, k), InRedis(value, life, k));
      SetsOther(config.maxSize, value, local, k - 1);
      InRedisNext(value, life, k - 1);
      SetStep(config, before, Key(k - 1), value, ttl, 1, WithA(value, local, k));
      OtherKey(k - 1);
      Extended(config, ops, states, results, first, before, if k == 1 then 0 else 1, t, None, after);
      ops, states, results := ops + [t], states + [after], results + [None];
    }
  }

  lemma BegunWithA<T>(value: T, local: nat, life: nat)
    ensures WithA(value, local, 0) == map["a" := Stored(value, 0, local)]
    ensures InRedis(value, life, 0) == map["a" := Remote(value, life)]
  {
    assert FirstKeys(0) == {};
  }

  lemma Begun<T(!new)>(config: Config, value: T, ttl: Option<nat>)
    returns (ops: seq<Timed<T>>, states: seq<Tiers<T>>, results: seq<Option<T>>)
    requires TakenByRedis(config, ttl)
    ensures Reaches(config, ops, states, results, Timed(Set("a", value, ttl), 0),
                    Tiers(map["a" := Stored(value, 0, config.MemoryTtl(ttl))],
                          if config.useRedis then map["a" := Remote(value, config.WholeSeconds(ttl) * SECOND)]
                          else map[]), 0)
  {
    hide Sets;
    var life, local := config.WholeSeconds(ttl) * SECOND, config.MemoryTtl(ttl);
    var none: Tiers<T> := Tiers(map[], map[]);
    var server: Server<T> := none.server["a" := Remote(value, 0 + life)];
    SetsOnEmpty(config.maxSize, "a", value, local, 0);
    SetStep(config, none, "a", value, ttl, 0, map["a" := Stored(value, 0, local)]);
    hide Next;
    ops, results := [Timed(Set("a", value, ttl), 0)], [None];
    states := [none, Tiers(map["a" := Stored(value, 0, local)], if config.useRedis then server else none.server)];
  }

  /** In a cache of any capacity, a value can be served one instant before the end of its life in Redis plus a
      full default time to live: after its memory entry was evicted, a hit in Redis puts it back. */
  lemma ServedPastItsTtl<T(!new)>(config: Config, value: T, ttl: Option<nat>)
    returns (ops: seq<Timed<T>>, states: seq<Tiers<T>>, results: seq<Option<T>>, tiers: Tiers<T>)
    requires config.useRedis && TakenByRedis(config, ttl)
    ensures |results| == |ops| > 0 && results[|ops| - 1] == Some(value) && ops[|ops| - 1].op == Get("a")
    ensures Reaches(config, ops, states, results, Timed(Set("a", value, ttl), 0), tiers,
                    config.WholeSeconds(ttl) * SECOND + config.defaultTtl - 1)
  {
    var k := if config.maxSize == 0 then 0 else config.maxSize - 1;
    ops, states, results := Filled(config, value, ttl, k);
    ops, states, results, tiers := EvictedAndBack(config, value, ttl, k, ops, states, results);
  }

  /** The key "a" is evicted, brought back from Redis just before it ends there, and served once more. */
  lemma EvictedAndBack<T(!new)>(config: Config, value: T, ttl: Option<nat>, k: nat,
                                ops: seq<Timed<T>>, states: seq<Tiers<T>>, results: seq<Option<T>>)
    returns (ops': seq<Timed<T>>, states': seq<Tiers<T>>, results': seq<Option<T>>, tiers: Tiers<T>)
    requires config.useRedis && TakenByRedis(config, ttl) && k + 1 >= config.maxSize
    requires Reaches(config, ops, states, results, Timed(Set("a", value, ttl), 0),
                     Tiers(WithA(value, config.MemoryTtl(ttl), k),
                           InRedis(value, config.WholeSeconds(ttl) * SECOND, k)),
                     if k == 0 then 0 else 1)
    ensures ops' != [] && |results'| == |ops'| && results'[|ops'| - 1] == Some(value)
    ensures Reaches(config, ops', states', results', Timed(Set("a", value, ttl), 0), tiers,
                    config.WholeSeconds(ttl) * SECOND + config.defaultTtl - 1)
    ensures ops'[|ops'| - 1].op == Get("a")
  {
    hide Next, Sets, Others, Reaches;
    var life, local, first := config.WholeSeconds(ttl) * SECOND, config.MemoryTtl(ttl), Timed(Set("a", value, ttl), 0);
    assert life >= SECOND by {
      assert config.WholeSeconds(ttl) >= 1;
    }
    var full := Tiers(WithA(value, local, k), InRedis(value, life, k));
    var evicted := Tiers(Others(value, local, k + 1), InRedis(value, life, k + 1));
    var t := Timed(Set(Key(k), value, ttl), 1);
    SetsOther(config.maxSize, value, local, k);
    InRedisNext(value, life, k);
    SetStep(config, full, Key(k), value, ttl, 1, evicted.memory);
    OtherKey(k);
    Extended(config, ops, states, results, first, full, if k == 0 then 0 else 1, t, None, evicted);

    var back := evicted.(memory := Others(value, local, k)["a" := Stored(value, life - 1, config.defaultTtl)]);
    SetsBack(config.maxSize, value, local, k, config.defaultTtl, life - 1);
    OthersSize(value, local, k + 1);
    RefillStep(config, evicted, "a", life - 1, back.memory);
    var ops1, states1, results1 := ops + [t], states + [evicted], results + [None];
    Extended(config, ops1, states1, results1, first, evicted, 1, Timed(Get("a"), life - 1), Some(value), back);

    var end := life + config.defaultTtl - 1;
    HitStep(config, back, "a", end);
    var served := back.(memory := back.memory["a" := back.memory["a"].Accessed(end)]);
    var ops2, states2, results2 := ops1 + [Timed(Get("a"), life - 1)], states1 + [back], results1 + [Some(value)];
    Extended(config, ops2, states2, results2, first, back, life - 1, Timed(Get("a"), end), Some(value), served);
    ops', states', results' := ops2 + [Timed(Get("a"), end)], states2 + [served], results2 + [Some(value)];
    tiers := served;
    ResultsOf(config, ops', states', results', first, served, end);
  }

  /** A value that nobody evicts is served from memory until the very end of its time to live. */
  lemma ServedFromMemory<T(!new)>(config: Config, value: T, ttl: Option<nat>)
    returns (ops: seq<Timed<T>>, states: seq<Tiers<T>>, results: seq<Option<T>>, tiers: Tiers<T>)
    requires TakenByRedis(config, ttl)
    ensures |results| == |ops| > 0 && results[|ops| - 1] == Some(value) && ops[|ops| - 1].op == Get("a")
    ensures Reaches(config, ops, states, results, Timed(Set("a", value, ttl), 0), tiers, config.MemoryTtl(ttl))
  {
    hide Next, Reaches;
    var local, first := config.MemoryTtl(ttl), Timed(Set("a", value, ttl), 0);
    ops, states, results := Begun(config, value, ttl);
    var server := if config.useRedis then map["a" := Remote(value, config.WholeSeconds(ttl) * SECOND)] else map[];
    var set_ := Tiers(map["a" := Stored(value, 0, local)], server);
    HitStep(config, set_, "a", local);
    tiers := set_.(memory := set_.memory["a" := set_.memory["a"].Accessed(local)]);
    Extended(config, ops, states, results, first, set_, 0, Timed(Get("a"), local), Some(value), tiers);
    ops, states, results := ops + [Timed(Get("a"), local)], states + [tiers], results + [Some(value)];
    ResultsOf(config, ops, states, results, first, tiers, local);
  }

  /** So for every time to live that Redis takes, in caches of every capacity, with Redis or without, the value
      can be served at `ServedUntil`: the bound cannot be improved. */
  lemma ServedUntilIsMet<T(!new)>(config: Config, value: T, ttl: Option<nat>)
    returns (ops: seq<Timed<T>>, states: seq<Tiers<T>>, results: seq<Option<T>>)
    requires TakenByRedis(config, ttl)
    ensures IsRun(config, ops, states, results) && Ordered(ops) && AllTaken(config, ops) && ops != []
    ensures LastSet(ops, "a") == Some(Timed(Set("a", value, ttl), 0))
    ensures ops[|ops| - 1].op == Get("a") && results[|ops| - 1] == Some(value)
    ensures ops[|ops| - 1].at == ServedUntil(config, Timed(Set("a", value, ttl), 0))
  {
    hide IsRun, Ordered, AllTaken, LastSet;
    var tiers;
    if config.useRedis && config.WholeSeconds(ttl) * SECOND - 1 + config.defaultTtl > config.MemoryTtl(ttl) {
      ops, states, results, tiers := ServedPastItsTtl(config, value, ttl);
    } else {
      ops, states, results, tiers := ServedFromMemory(config, value, ttl);
    }
  }

  lemma ResultsOf<T(!new)>(config: Config, ops: seq<Timed<T>>, states: seq<Tiers<T>>, results: seq<Option<T>>,
                           first: Timed<T>, tiers: Tiers<T>, now: int)
    requires Reaches(config, ops, states, results, first, tiers, now)
    ensures |results| == |ops|
  {
  }

  // ----- Times to live below a second -------------------------------------------------------------

  /** Every `Set` of the run has a time to live that Redis takes, or this one. */
  ghost predicate TakenOr<T>(config: Config, ops: seq<Timed<T>>, ttl: Option<nat>) {
    forall i :: 0 <= i < |ops| && ops[i].op.Set? ==> ops[i].op.ttl == ttl || TakenByRedis(config, ops[i].op.ttl)
  }

  /** Using this time to live never lets a `Get` return anything but the value set last. */
  ghost predicate Harmless<T(!new)>(config: Config, ttl: Option<nat>) {
    forall ops: seq<Timed<T>>, states, results, i: nat ::
      IsRun(config, ops, states, results) && Ordered(ops) && TakenOr(config, ops, ttl) && i < |ops| ==>
        ServesCurrent(config, ops, results, i)
  }

  /** A `Set` that Redis rejects updates memory only.  Once that entry expires, the overwritten value
      comes back from Redis. */
  lemma RejectedSetResurfaces<T(!new)>(config: Config, ttl: Option<nat>, first: T, second: T)
    returns (ops: seq<Timed<T>>, states: seq<Tiers<T>>, results: seq<Option<T>>)
    requires !TakenByRedis(config, ttl) && first != second
    ensures IsRun(config, ops, states, results) && Ordered(ops) && TakenOr(config, ops, ttl)
    ensures |ops| == 3 && !ServesCurrent(config, ops, results, 2)
  {
    hide Sets;
    var life := config.MemoryTtl(ttl) + 2;
    var long := life * SECOND + SECOND;
    assert config.WholeSeconds(Some(long)) == life + 1 by {
      assert long == (life + 1) * SECOND;
    }
    ops := [Timed(Set("a", first, Some(long)), 0), Timed(Set("a", second, ttl), 1), Timed(Get("a"), life)];
    var server: Server<T> := map["a" := Remote(first, long)];
    states := [Tiers(map[], map[]),
               Tiers(map["a" := Stored(first, 0, long)], server),
               Tiers(map["a" := Stored(second, 1, config.MemoryTtl(ttl))], server),
               Tiers(map["a" := Stored(first, life, config.defaultTtl)], server)];
    results := [None, None, Some(first)];

    SetsOnEmpty(config.maxSize, "a", first, long, 0);
    assert Next(config, states[0], ops[0], None, states[1]);
    SetsOverSame(config.maxSize, "a", Stored(first, 0, long), second, config.MemoryTtl(ttl), 1);
    assert Next(config, states[1], ops[1], None, states[2]);
    assert AfterGet(states[2].memory, "a", life) == map[];
    SetsOnEmpty(config.maxSize, "a", first, config.defaultTtl, life);
    assert Next(config, states[2], ops[2], Some(first), states[3]);
    assert ops[..2][..1] == ops[..1];
    assert LastSet(ops[..2], "a") == Some(ops[1]);
  }

  /** A time to live is harmless exactly when Redis is off or it makes at least one whole second. */
  lemma HarmlessIffTaken<T(!new)>(config: Config, ttl: Option<nat>, first: T, second: T)
    requires first != second
    ensures Harmless<T>(config, ttl) <==> !config.useRedis || RemoteTtl(config, ttl) >= 1_000_000_000
  {
    if TakenByRedis(config, ttl) {
      forall ops: seq<Timed<T>>, states, results, i: nat
        | IsRun(config, ops, states, results) && Ordered(ops) && TakenOr(config, ops, ttl) && i < |ops|
        ensures ServesCurrent(config, ops, results, i)
      {
        HitsAreCurrent(config, ops, states, results, i);
      }
    } else {
      var ops, states, results := RejectedSetResurfaces(config, ttl, first, second);
      assert !ServesCurrent(config, ops, results, 2);
    }
  }
}
