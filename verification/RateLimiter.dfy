/** The sliding-window rate limiter of src/api/auth.rs and the limits the gateway derives for it.

    Instants are integers counting nanoseconds.  A history is the list of the times at which
    requests of one identifier were accepted, oldest first. */
module RateLimiter {

  const SECOND: int := 1_000_000_000
  const MINUTE: int := 60 * SECOND
  const HOUR: int := 3600 * SECOND
  const DAY: int := 86400 * SECOND
  const U32: int := 0x1_0000_0000

  datatype RateLimit = RateLimit(perMinute: nat, perHour: nat, perDay: nat)

  datatype Stats = Stats(identifier: string, lastMinute: nat, lastHour: nat, lastDay: nat, limits: RateLimit)

  /** What `retain` leaves of a history when everything up to `cutoff` is dropped. */
  function KeepAfter(history: seq<int>, cutoff: int): seq<int> {
    if history == [] then [] else
      var rest := KeepAfter(history[..|history| - 1], cutoff);
      if history[|history| - 1] > cutoff then rest + [history[|history| - 1]] else rest
  }

  /** How many requests of the history are later than `cutoff`. */
  function CountAfter(history: seq<int>, cutoff: int): nat {
    if history == [] then 0 else
      CountAfter(history[..|history| - 1], cutoff) + if history[|history| - 1] > cutoff then 1 else 0
  }

  /** The limiter's rule stated on a complete, unpruned history: every one of the three windows
      that end now holds fewer requests than its limit. */
  predicate Admits(limits: RateLimit, history: seq<int>, now: int) {
    && CountAfter(history, now - MINUTE) < limits.perMinute
    && CountAfter(history, now - HOUR) < limits.perHour
    && CountAfter(history, now - DAY) < limits.perDay
  }

  /** What one check does to the stored history. */
  function Checked(limits: RateLimit, history: seq<int>, now: int): seq<int> {
    KeepAfter(history, now - DAY) + if Admits(limits, history, now) then [now] else []
  }

  function HistoryOf(requests: map<string, seq<int>>, id: string): seq<int> {
    if id in requests then requests[id] else []
  }

  function AsU32(n: nat): nat {
    n % U32
  }

  function StatsOf(identifier: string, limits: RateLimit, history: seq<int>, now: int): Stats {
    Stats(identifier,
          AsU32(CountAfter(history, now - MINUTE)),
          AsU32(CountAfter(history, now - HOUR)),
          AsU32(CountAfter(history, now - DAY)),
          limits)
  }

  class RateLimiter {
    var requests: map<string, seq<int>>
    const limits: RateLimit

    constructor (limits: RateLimit)
      ensures this.limits == limits && requests == map[]
    {
      this.limits := limits;
      requests := map[];
    }

    method CheckRateLimit(identifier: string, now: int) returns (ok: bool)
      modifies this
      ensures ok == Admits(limits, HistoryOf(old(requests), identifier), now)
      ensures requests == old(requests)[identifier := Checked(limits, HistoryOf(old(requests), identifier), now)]
    {
      ghost var before := HistoryOf(requests, identifier);
      if identifier !in requests {
        requests := requests[identifier := []];
      }

      var history := KeepAfter(requests[identifier], now - DAY);
      assert history + [] == history;
      requests := requests[identifier := history];
      KeepLength(before, now - DAY);
      CountKept(before, now - DAY, now - HOUR);
      CountKept(before, now - DAY, now - MINUTE);
      if |history| >= limits.perDay {
        return false;
      }

      var hourly := CountAfter(history, now - HOUR);
      if hourly >= limits.perHour {
        return false;
      }

      var minutely := CountAfter(history, now - MINUTE);
      if minutely >= limits.perMinute {
        return false;
      }

      requests := requests[identifier := history + [now]];
      return true;
    }

    method GetRateLimitStats(identifier: string, now: int) returns (stats: Stats)
      ensures stats == StatsOf(identifier, limits, HistoryOf(requests, identifier), now)
    {
      if identifier in requests {
        var history := requests[identifier];
        stats := Stats(identifier,
                       AsU32(CountAfter(history, now - MINUTE)),
                       AsU32(CountAfter(history, now - HOUR)),
                       AsU32(CountAfter(history, now - DAY)),
                       limits);
      } else {
        stats := Stats(identifier, 0, 0, 0, limits);
      }
    }
  }

  lemma {:induction false} KeepLength(history: seq<int>, cutoff: int)
    ensures |KeepAfter(history, cutoff)| == CountAfter(history, cutoff)
  {
    if history != [] {
      KeepLength(history[..|history| - 1], cutoff);
    }
  }

  /** Pruning up to `pruned` does not change how many entries are later than `cutoff`. */
  lemma {:induction false} CountKept(history: seq<int>, pruned: int, cutoff: int)
    requires pruned <= cutoff
    ensures CountAfter(KeepAfter(history, pruned), cutoff) == CountAfter(history, cutoff)
  {
    if history != [] {
      var front, last := history[..|history| - 1], history[|history| - 1];
      CountKept(front, pruned, cutoff);
      if last > pruned {
        var kept := KeepAfter(front, pruned) + [last];
        assert kept[..|kept| - 1] == KeepAfter(front, pruned);
      }
    }
  }

  // ----- Runs ---------------------------------------------------------------------------------

  /** One call of the limiter. */
  datatype Call = Call(id: string, at: int)

  /** The lock serializes the calls and each reads the clock while holding it. */
  ghost predicate Ordered(calls: seq<Call>) {
    forall i, j :: 0 <= i < j < |calls| ==> calls[i].at <= calls[j].at
  }

  /** The limiter's map after a run, as `CheckRateLimit` maintains it. */
  function Stored(limits: RateLimit, calls: seq<Call>): map<string, seq<int>> {
    if calls == [] then map[] else
      var before := Stored(limits, calls[..|calls| - 1]);
      var call := calls[|calls| - 1];
      before[call.id := Checked(limits, HistoryOf(before, call.id), call.at)]
  }

  /** The answer the limiter gives to call `i` of a run. */
  predicate Answer(limits: RateLimit, calls: seq<Call>, i: nat)
    requires i < |calls|
  {
    Admits(limits, HistoryOf(Stored(limits, calls[..i]), calls[i].id), calls[i].at)
  }

  /** The reference: all acceptances of an identifier, decided on the full log, nothing forgotten. */
  function Log(limits: RateLimit, calls: seq<Call>, id: string): seq<int> {
    if calls == [] then [] else
      var before := Log(limits, calls[..|calls| - 1], id);
      var call := calls[|calls| - 1];
      if call.id == id && Admits(limits, before, call.at) then before + [call.at] else before
  }

  /** Two histories the limiter cannot tell apart from time `now` on. */
  ghost predicate SameFrom(a: seq<int>, b: seq<int>, now: int) {
    forall cutoff :: cutoff >= now - DAY ==> CountAfter(a, cutoff) == CountAfter(b, cutoff)
  }

  lemma {:induction false} CountAppend(history: seq<int>, t: int, cutoff: int)
    ensures CountAfter(history + [t], cutoff) == CountAfter(history, cutoff) + if t > cutoff then 1 else 0
  {
    assert (history + [t])[..|history|] == history;
  }

  /** Histories the limiter cannot tell apart are decided alike and stay indistinguishable, although only
      the first is pruned. */
  lemma SameAfterCheck(limits: RateLimit, stored: seq<int>, log: seq<int>, at: int, now: int)
    requires SameFrom(stored, log, at) && at <= now
    ensures Admits(limits, stored, at) == Admits(limits, log, at)
    ensures SameFrom(Checked(limits, stored, at), if Admits(limits, log, at) then log + [at] else log, now)
    ensures SameFrom(stored, log, now)
  {
    hide KeepAfter, CountAfter;
    assert Admits(limits, stored, at) == Admits(limits, log, at);
    forall cutoff | cutoff >= now - DAY
      ensures CountAfter(Checked(limits, stored, at), cutoff)
           == CountAfter(if Admits(limits, log, at) then log + [at] else log, cutoff)
    {
      CountKept(stored, at - DAY, cutoff);
      var kept := KeepAfter(stored, at - DAY);
      CountAppend(kept, at, cutoff);
      CountAppend(log, at, cutoff);
      assert kept + [] == kept;
    }
  }

  /** Forgetting what is older than a day never shows: the stored history and the full log count
      alike in every window the limiter will ever look at. */
  lemma {:induction false} PruningInvisible(limits: RateLimit, calls: seq<Call>, id: string, now: int)
    requires Ordered(calls)
    requires forall i :: 0 <= i < |calls| ==> calls[i].at <= now
    ensures SameFrom(HistoryOf(Stored(limits, calls), id), Log(limits, calls, id), now)
  {
    if calls != [] {
      var front, call := calls[..|calls| - 1], calls[|calls| - 1];
      PruningInvisible(limits, front, id, call.at);
      var stored := HistoryOf(Stored(limits, front), id);
      var log := Log(limits, front, id);
      SameAfterCheck(limits, stored, log, call.at, now);
    }
  }

  /** Every decision of a run is that of a limiter keeping the full log. */
  lemma DecidesAsFullLog(limits: RateLimit, calls: seq<Call>, i: nat)
    requires Ordered(calls) && i < |calls|
    ensures Answer(limits, calls, i) == Admits(limits, Log(limits, calls[..i], calls[i].id), calls[i].at)
  {
    PruningInvisible(limits, calls[..i], calls[i].id, calls[i].at);
  }
}
