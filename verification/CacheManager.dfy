/** The two-tier cache of src/cache/memory.rs: the memory cache in front of a Redis server.

    Redis is a map whose keys expire after a whole number of seconds.  It starts empty and only this
    manager writes it, one operation at a time.  A SETEX of zero seconds is an error in Redis: it leaves
    the server's map as it was.  The client panics on the error, after memory was written; the model is of a
    build that unwinds, in which the process lives on and only the caller of `Set` gets no answer. */
module CacheManager {
  import opened Wrappers
  import opened MemoryCache

  const SECOND: nat := 1_000_000_000

  datatype Remote<+T> = Remote(value: T, until: int)

  type Server<T> = map<string, Remote<T>>

  datatype Config = Config(maxSize: nat, defaultTtl: nat, redisDefaultTtl: nat, useRedis: bool) {
    /** The life a SETEX asks for: the time to live cut down to whole seconds. */
    function WholeSeconds(ttl: Option<nat>): nat {
      (if ttl.Some? then ttl.value else redisDefaultTtl) / SECOND
    }

    function MemoryTtl(ttl: Option<nat>): nat {
      if ttl.Some? then ttl.value else defaultTtl
    }
  }

  function RemoteGot<T>(server: Server<T>, key: string, now: int): Option<T> {
    if key in server && now < server[key].until then Some(server[key].value) else None
  }

  function AfterSetEx<T>(server: Server<T>, key: string, value: T, seconds: nat, now: int): Server<T> {
    if seconds == 0 then server else server[key := Remote(value, now + seconds * SECOND)]
  }

  /** The contents of both tiers. */
  datatype Tiers<T> = Tiers(memory: Data<T>, server: Server<T>)

  datatype Op<+T> =
    | Get(key: string)
    | Set(key: string, value: T, ttl: Option<nat>)
    | Delete(key: string)
    | Clear
    | Cleanup

  datatype Timed<+T> = Timed(op: Op<T>, at: int)

  /** What one operation does; `result` is what a `Get` returns. */
  ghost predicate Next<T(!new)>(config: Config, before: Tiers<T>, t: Timed<T>, result: Option<T>, after: Tiers<T>) {
    match t.op
    case Get(key) => GetNext(config, before, key, t.at, result, after)
    case Set(key, value, ttl) =>
      && Sets(config.maxSize, before.memory, key, value, Some(config.MemoryTtl(ttl)), t.at, after.memory)
      && after.server == (if config.useRedis then AfterSetEx(before.server, key, value, config.WholeSeconds(ttl), t.at)
                          else before.server)
    case Delete(key) =>
      && after.memory == before.memory - {key}
      && after.server == (if config.useRedis then before.server - {key} else before.server)
    case Clear => after == Tiers(map[], if config.useRedis then map[] else before.server)
    case Cleanup => after == before.(memory := Unexpired(before.memory, t.at))
  }

  ghost predicate GetNext<T(!new)>(config: Config, before: Tiers<T>, key: string, now: int, result: Option<T>,
                                   after: Tiers<T>) {
    var local, remote := Got(before.memory, key, now), RemoteGot(before.server, key, now);
    && after.server == before.server
    && if local.Some? || !config.useRedis || remote.None? then
         result == local && after.memory == AfterGet(before.memory, key, now)
       else
         && result == remote
         && Sets(config.maxSize, AfterGet(before.memory, key, now), key, remote.value, Some(config.defaultTtl), now,
                 after.memory)
  }

  class CacheManager<T(!new, ==)> {
    const memory: MemoryCache<T>
    var server: Server<T>
    const redisDefaultTtl: nat
    const useRedis: bool

    constructor (memory: MemoryCache<T>, redisDefaultTtl: nat, useRedis: bool)
      ensures this.memory == memory && this.redisDefaultTtl == redisDefaultTtl && this.useRedis == useRedis
      ensures server == map[]
    {
      this.memory := memory;
      this.redisDefaultTtl := redisDefaultTtl;
      this.useRedis := useRedis;
      server := map[];
    }

    ghost function Settings(): Config {
      Config(memory.maxSize, memory.defaultTtl, redisDefaultTtl, useRedis)
    }

    ghost function Contents(): Tiers<T>
      reads this, memory
    {
      Tiers(memory.data, server)
    }

    method Get(key: string, now: int) returns (result: Option<T>)
      modifies this, memory
      ensures Next(Settings(), old(Contents()), Timed(Op.Get(key), now), result, Contents())
    {
      result := memory.Get(key, now);
      if result.Some? {
        return;
      }
      if useRedis {
        var value := RemoteGot(server, key, now);
        if value.Some? {
          memory.Set(key, value.value, None, now);
          return value;
        }
      }
      return None;
    }

    /** `ok` is false when the server rejected the time to live and the call did not return. */
    method Set(key: string, value: T, ttl: Option<nat>, now: int) returns (ok: bool)
      modifies this, memory
      ensures Next(Settings(), old(Contents()), Timed(Op.Set(key, value, ttl), now), None, Contents())
      ensures ok <==> (useRedis ==> ttl.Or(Some(redisDefaultTtl)).value >= 1_000_000_000)
    {
      memory.Set(key, value, ttl, now);
      ok := true;
      if useRedis {
        var seconds := (if ttl.Some? then ttl.value else redisDefaultTtl) / SECOND;
        ok := seconds > 0;
        server := AfterSetEx(server, key, value, seconds, now);
      }
    }

    method Delete(key: string, now: int) returns (deleted: bool)
      modifies this, memory
      ensures Next(Settings(), old(Contents()), Timed(Op.Delete(key), now), None, Contents())
      ensures deleted == (key in old(memory.data) || (useRedis && RemoteGot(old(server), key, now).Some?))
    {
      deleted := memory.Delete(key);
      if useRedis {
        if RemoteGot(server, key, now).Some? {
          deleted := true;
        }
        server := server - {key};
      }
    }

    /** Redis drops all keys with the manager's prefix; there are no others. */
    method Clear(now: int)
      modifies this, memory
      ensures Next(Settings(), old(Contents()), Timed(Op.Clear, now), None, Contents())
    {
      memory.Clear();
      if useRedis {
        server := map[];
      }
    }
  }
}
