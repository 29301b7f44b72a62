/** What the limiter guarantees over whole runs: the window bounds, and when the two long windows matter. */
module RateWindows {
  import opened RateLimiter

  // ----- Windows ------------------------------------------------------------------------------

  ghost predicate Sorted(log: seq<int>) {
    forall i, j :: 0 <= i < j < |log| ==> log[i] <= log[j]
  }

  /** Entries that are `limit` places apart are at least `width` apart in time. */
  ghost predicate Spaced(log: seq<int>, limit: nat, width: int) {
    forall i, j :: 0 <= i < j < |log| && j - i >= limit ==> log[j] - log[i] >= width
  }

  ghost predicate WellSpaced(limits: RateLimit, log: seq<int>) {
    && Spaced(log, limits.perMinute, MINUTE)
    && Spaced(log, limits.perHour, HOUR)
    && Spaced(log, limits.perDay, DAY)
  }

  /** In a sorted log, an entry later than the cutoff brings all its successors with it. */
  lemma {:induction false} CountFrom(log: seq<int>, k: nat, cutoff: int)
    requires Sorted(log) && k < |log| && log[k] > cutoff
    ensures CountAfter(log, cutoff) >= |log| - k
  {
    if k + 1 < |log| {
      CountFrom(log[..|log| - 1], k, cutoff);
    }
  }

  /** A sorted log with at most `k` entries later than the cutoff has only those at its end. */
  lemma {:induction false} CountUpTo(log: seq<int>, k: nat, cutoff: int)
    requires k <= |log| && forall i :: 0 <= i < k ==> log[i] <= cutoff
    ensures CountAfter(log, cutoff) <= |log| - k
  {
    if k < |log| {
      CountUpTo(log[..|log| - 1], k, cutoff);
    } else if log != [] {
      CountUpTo(log[..|log| - 1], k - 1, cutoff);
    }
  }

  /** Accepting when fewer than `limit` entries are younger than `width` keeps the spacing. */
  lemma AppendSpaced(log: seq<int>, now: int, limit: nat, width: int)
    requires Sorted(log) && Spaced(log, limit, width) && CountAfter(log, now - width) < limit
    ensures Spaced(log + [now], limit, width)
  {
    var next := log + [now];
    forall i, j | 0 <= i < j < |next| && j - i >= limit
      ensures next[j] - next[i] >= width
    {
      if j == |log| && log[i] > now - width {
        CountFrom(log, i, now - width);
      }
    }
  }

  ghost predicate UpTo(log: seq<int>, now: int) {
    forall i :: 0 <= i < |log| ==> log[i] <= now
  }

  lemma AdmitSpaced(limits: RateLimit, log: seq<int>, now: int)
    requires Sorted(log) && UpTo(log, now) && WellSpaced(limits, log) && Admits(limits, log, now)
    ensures Sorted(log + [now]) && UpTo(log + [now], now) && WellSpaced(limits, log + [now])
  {
    AppendSpaced(log, now, limits.perMinute, MINUTE);
    AppendSpaced(log, now, limits.perHour, HOUR);
    AppendSpaced(log, now, limits.perDay, DAY);
  }

  lemma {:induction false} LogSpaced(limits: RateLimit, calls: seq<Call>, id: string)
    requires Ordered(calls)
    ensures limits.perMinute == 0 || limits.perHour == 0 || limits.perDay == 0 ==> Log(limits, calls, id) == []
    ensures Sorted(Log(limits, calls, id)) && WellSpaced(limits, Log(limits, calls, id))
    ensures calls != [] ==> UpTo(Log(limits, calls, id), calls[|calls| - 1].at)
  {
    if calls != [] {
      var front, call := calls[..|calls| - 1], calls[|calls| - 1];
      LogSpaced(limits, front, id);
      var log := Log(limits, front, id);
      assert front != [] ==> front[|front| - 1].at <= call.at;
      if call.id == id && Admits(limits, log, call.at) {
        AdmitSpaced(limits, log, call.at);
      }
    }
  }

  /** The number of entries in the half-open window that begins at `start`. */
  function CountWithin(log: seq<int>, start: int, width: int): nat {
    if log == [] then 0 else
      CountWithin(log[..|log| - 1], start, width) + if start <= log[|log| - 1] < start + width then 1 else 0
  }

  lemma {:induction false} CountWithinUpTo(log: seq<int>, k: nat, start: int, width: int)
    requires k <= |log| && forall i :: 0 <= i < k ==> log[i] < start
    ensures CountWithin(log, start, width) <= |log| - k
  {
    if k < |log| {
      CountWithinUpTo(log[..|log| - 1], k, start, width);
    } else if log != [] {
      CountWithinUpTo(log[..|log| - 1], k - 1, start, width);
    }
  }

  lemma {:induction false} SpacedWindow(log: seq<int>, limit: nat, start: int, width: int)
    requires Sorted(log) && Spaced(log, limit, width) && (limit == 0 ==> log == [])
    ensures CountWithin(log, start, width) <= limit
  {
    if log != [] {
      var n := |log|;
      if start <= log[n - 1] < start + width {
        var k := if limit <= n then n - limit else 0;
        CountWithinUpTo(log, k, start, width) by {
          forall i | 0 <= i < k
            ensures log[i] < start
          {
            assert n - 1 - i >= limit;
          }
        }
      } else {
        SpacedWindow(log[..n - 1], limit, start, width);
      }
    }
  }

  /** Wherever a window of a minute, an hour or a day starts, at most the corresponding limit of an
      identifier's requests was accepted in it.  (Instants are integers, so the window that excludes
      its start and includes its end is the one beginning one instant later.) */
  lemma WindowBound(limits: RateLimit, calls: seq<Call>, id: string, start: int)
    requires Ordered(calls)
    ensures CountWithin(Log(limits, calls, id), start, 60_000_000_000) <= limits.perMinute
    ensures CountWithin(Log(limits, calls, id), start, 3_600_000_000_000) <= limits.perHour
    ensures CountWithin(Log(limits, calls, id), start, 86_400_000_000_000) <= limits.perDay
  {
    LogSpaced(limits, calls, id);
    SpacedWindow(Log(limits, calls, id), limits.perMinute, start, MINUTE);
    SpacedWindow(Log(limits, calls, id), limits.perHour, start, HOUR);
    SpacedWindow(Log(limits, calls, id), limits.perDay, start, DAY);
  }

  lemma {:induction false} AfterIsWithin(log: seq<int>, now: int, width: int)
    requires UpTo(log, now)
    ensures CountAfter(log, now - width) == CountWithin(log, now - width + 1, width)
  {
    if log != [] {
      AfterIsWithin(log[..|log| - 1], now, width);
    }
  }

  /** The entries of the windows that end now and the limits they respect. */
  lemma CurrentWindows(limits: RateLimit, calls: seq<Call>, id: string, now: int)
    requires Ordered(calls) && (calls != [] ==> calls[|calls| - 1].at <= now)
    ensures var log := Log(limits, calls, id);
            && CountAfter(log, now - MINUTE) == CountWithin(log, now - MINUTE + 1, MINUTE) <= limits.perMinute
            && CountAfter(log, now - HOUR) == CountWithin(log, now - HOUR + 1, HOUR) <= limits.perHour
            && CountAfter(log, now - DAY) == CountWithin(log, now - DAY + 1, DAY) <= limits.perDay
  {
    var log := Log(limits, calls, id);
    assert UpTo(log, now) by {
      LogSpaced(limits, calls, id);
    }
    AfterIsWithin(log, now, MINUTE);
    AfterIsWithin(log, now, HOUR);
    AfterIsWithin(log, now, DAY);
    WindowBound(limits, calls, id, now - MINUTE + 1);
    WindowBound(limits, calls, id, now - HOUR + 1);
    WindowBound(limits, calls, id, now - DAY + 1);
  }

  /** A request is refused exactly when one of the windows ending now is full. */
  lemma RefusedOnlyWhenFull(limits: RateLimit, calls: seq<Call>, i: nat)
    requires Ordered(calls) && i < |calls|
    ensures var log, now := Log(limits, calls[..i], calls[i].id), calls[i].at;
            !Answer(limits, calls, i) <==>
            || CountWithin(log, now - MINUTE + 1, MINUTE) == limits.perMinute
            || CountWithin(log, now - HOUR + 1, HOUR) == limits.perHour
            || CountWithin(log, now - DAY + 1, DAY) == limits.perDay
  {
    hide Log, Answer, CountAfter, CountWithin;
    assert Ordered(calls[..i]);
    DecidesAsFullLog(limits, calls, i);
    CurrentWindows(limits, calls[..i], calls[i].id, calls[i].at);
  }

  /** Reported statistics are the true window counts of the full log: neither the pruning nor the
      casts to 32 bits lose anything, whatever 32-bit limits are configured. */
  lemma StatsAreExact(limits: RateLimit, calls: seq<Call>, id: string, now: int)
    requires Ordered(calls) && (calls != [] ==> calls[|calls| - 1].at <= now)
    requires limits.perMinute < U32 && limits.perHour < U32 && limits.perDay < U32
    ensures var log, stats := Log(limits, calls, id), StatsOf(id, limits, HistoryOf(Stored(limits, calls), id), now);
            && stats.identifier == id && stats.limits == limits
            && stats.lastMinute == CountWithin(log, now - MINUTE + 1, MINUTE) <= limits.perMinute
            && stats.lastHour == CountWithin(log, now - HOUR + 1, HOUR) <= limits.perHour
            && stats.lastDay == CountWithin(log, now - DAY + 1, DAY) <= limits.perDay
  {
    hide Log, Stored, CountAfter, CountWithin;
    PruningInvisible(limits, calls, id, now);
    CurrentWindows(limits, calls, id, now);
    var stored, log := HistoryOf(Stored(limits, calls), id), Log(limits, calls, id);
    assert CountAfter(stored, now - MINUTE) == CountAfter(log, now - MINUTE);
    assert CountAfter(stored, now - HOUR) == CountAfter(log, now - HOUR);
    assert CountAfter(stored, now - DAY) == CountAfter(log, now - DAY);
  }

  // ----- When the hourly and daily checks are redundant ------------------------------------------

  /** A limiter that only looks at the last minute. */
  function MinuteLog(perMinute: nat, calls: seq<Call>, id: string): seq<int> {
    if calls == [] then [] else
      var before := MinuteLog(perMinute, calls[..|calls| - 1], id);
      var call := calls[|calls| - 1];
      if call.id == id && CountAfter(before, call.at - MINUTE) < perMinute then before + [call.at] else before
  }

  predicate MinuteAnswer(perMinute: nat, calls: seq<Call>, i: nat)
    requires i < |calls|
  {
    CountAfter(MinuteLog(perMinute, calls[..i], calls[i].id), calls[i].at - MINUTE) < perMinute
  }

  /** The limiter answers every call of every run as its one-minute window alone would. */
  ghost predicate OnlyMinutesMatter(limits: RateLimit) {
    forall calls: seq<Call>, i: nat :: Ordered(calls) && i < |calls| ==>
      Answer(limits, calls, i) == MinuteAnswer(limits.perMinute, calls, i)
  }

  /** Counting back `k` full minutes from a minute that is not full reaches `k` minutes into the past. */
  lemma {:induction false} MinutesBack(log: seq<int>, perMinute: nat, now: int, k: nat)
    requires Sorted(log) && Spaced(log, perMinute, MINUTE) && perMinute > 0 && k > 0
    requires CountAfter(log, now - MINUTE) < perMinute && k * perMinute <= |log|
    ensures log[|log| - k * perMinute] <= now - k * MINUTE
  {
    if k == 1 {
      if log[|log| - perMinute] > now - MINUTE {
        CountFrom(log, |log| - perMinute, now - MINUTE);
      }
    } else {
      assert (k - 1) * perMinute + perMinute == k * perMinute;
      MinutesBack(log, perMinute, now, k - 1);
    }
  }

  /** A window of `k` minutes cannot be full when its last minute is not. */
  lemma LongWindowOpen(log: seq<int>, perMinute: nat, now: int, k: nat)
    requires Sorted(log) && Spaced(log, perMinute, MINUTE) && perMinute > 0 && k > 0
    requires CountAfter(log, now - MINUTE) < perMinute
    ensures CountAfter(log, now - k * MINUTE) < k * perMinute
  {
    assert k * perMinute > 0;
    if k * perMinute <= |log| {
      MinutesBack(log, perMinute, now, k);
      var first := |log| - k * perMinute;
      CountUpTo(log, first + 1, now - k * MINUTE);
    } else {
      CountUpTo(log, 0, now - k * MINUTE);
    }
  }

  lemma {:induction false} SameLogs(limits: RateLimit, calls: seq<Call>, id: string)
    requires Ordered(calls)
    requires limits.perMinute == 0 || limits.perHour >= 60 * limits.perMinute
    requires limits.perMinute == 0 || limits.perDay >= 1440 * limits.perMinute
    ensures Log(limits, calls, id) == MinuteLog(limits.perMinute, calls, id)
  {
    if calls != [] {
      var front, call := calls[..|calls| - 1], calls[|calls| - 1];
      SameLogs(limits, front, id);
      AdmitsByMinute(limits, front, id, call.at);
    }
  }

  lemma AdmitsByMinute(limits: RateLimit, calls: seq<Call>, id: string, now: int)
    requires Ordered(calls)
    requires limits.perMinute == 0 || limits.perHour >= 60 * limits.perMinute
    requires limits.perMinute == 0 || limits.perDay >= 1440 * limits.perMinute
    ensures Admits(limits, Log(limits, calls, id), now) ==
            (CountAfter(Log(limits, calls, id), now - MINUTE) < limits.perMinute)
  {
    hide Log, CountAfter, Sorted, Spaced, Ordered;
    var log := Log(limits, calls, id);
    LogSpaced(limits, calls, id);
    if CountAfter(log, now - MINUTE) < limits.perMinute {
      LongWindowOpen(log, limits.perMinute, now, 60);
      LongWindowOpen(log, limits.perMinute, now, 1440);
    }
  }

  /** The instant of call `i` when `perMinute` calls are made at the start of each minute. */
  function BurstTime(perMinute: nat, i: nat): int
    requires perMinute > 0
  {
    MINUTE * (i / perMinute)
  }

  function BurstTimes(perMinute: nat, count: nat): seq<int>
    requires perMinute > 0
  {
    seq(count, i requires i >= 0 => BurstTime(perMinute, i))
  }

  function Bursts(perMinute: nat, count: nat): seq<Call>
    requires perMinute > 0
  {
    seq(count, i requires i >= 0 => Call("", BurstTime(perMinute, i)))
  }

  lemma QuotientMonotone(i: nat, j: nat, d: nat)
    requires d > 0 && i <= j
    ensures i / d <= j / d
  {
    var p, q := i / d, j / d;
    assert d * p <= i && j < d * (q + 1);
    if p >= q + 1 {
      ScaleMonotone(q + 1, p, d);
      assert false;
    }
  }

  lemma ScaleMonotone(a: nat, b: nat, d: nat)
    requires a <= b
    ensures d * a <= d * b
  {
    assert d * b == d * a + d * (b - a);
  }

  lemma QuotientBelow(i: nat, k: nat, d: nat)
    requires d > 0 && i < k * d
    ensures i / d < k
  {
    if i / d >= k {
      ScaleMonotone(k, i / d, d);
      assert false;
    }
  }

  lemma BurstsOrdered(perMinute: nat, count: nat)
    requires perMinute > 0
    ensures Ordered(Bursts(perMinute, count)) && Sorted(BurstTimes(perMinute, count))
  {
    forall i, j | 0 <= i < j < count
      ensures BurstTime(perMinute, i) <= BurstTime(perMinute, j)
    {
      QuotientMonotone(i, j, perMinute);
    }
  }

  /** The minute that ends with call `count` of the bursts is not full. */
  lemma BurstMinuteOpen(perMinute: nat, count: nat)
    requires perMinute > 0
    ensures CountAfter(BurstTimes(perMinute, count), BurstTime(perMinute, count) - MINUTE) < perMinute
  {
    var minute := count / perMinute;
    var first := minute * perMinute;
    var times, cutoff := BurstTimes(perMinute, count), BurstTime(perMinute, count) - MINUTE;
    assert first <= count < first + perMinute;
    forall i | 0 <= i < first
      ensures times[i] <= cutoff
    {
      QuotientBelow(i, minute, perMinute);
    }
    CountUpTo(times, first, cutoff);
  }

  /** The one-minute limiter accepts every call of the bursts. */
  lemma {:induction false} BurstsAccepted(perMinute: nat, count: nat)
    requires perMinute > 0
    ensures MinuteLog(perMinute, Bursts(perMinute, count), "") == BurstTimes(perMinute, count)
  {
    if count > 0 {
      var calls, n := Bursts(perMinute, count), count - 1;
      BurstsAccepted(perMinute, n);
      BurstMinuteOpen(perMinute, n);
      assert calls[..n] == Bursts(perMinute, n);
      assert BurstTimes(perMinute, count) == BurstTimes(perMinute, n) + [BurstTime(perMinute, n)];
    }
  }

  /** A window of `k` minutes that ends with call `count` of the bursts holds all of them. */
  lemma BurstsFill(perMinute: nat, count: nat, k: nat)
    requires perMinute > 0 && count < k * perMinute
    ensures CountAfter(BurstTimes(perMinute, count), BurstTime(perMinute, count) - k * MINUTE) >= count
  {
    BurstsOrdered(perMinute, count);
    QuotientBelow(count, k, perMinute);
    if count > 0 {
      QuotientBelow(0, 1, perMinute);
      CountFrom(BurstTimes(perMinute, count), 0, BurstTime(perMinute, count) - k * MINUTE);
    }
  }

  /** A limiter that decides by the minute alone would accept every call of the bursts. */
  lemma BurstsAdmitted(limits: RateLimit, count: nat)
    requires limits.perMinute > 0 && OnlyMinutesMatter(limits)
    ensures Admits(limits, BurstTimes(limits.perMinute, count), BurstTime(limits.perMinute, count))
  {
    var m, calls := limits.perMinute, Bursts(limits.perMinute, count + 1);
    BurstsOrdered(m, count + 1);
    assert Ordered(calls);
    var front := calls[..count];
    assert front == Bursts(m, count);
    assert Ordered(front);
    BurstsAccepted(m, count);
    BurstMinuteOpen(m, count);
    SameLogsIf(limits, front, "");
    assert MinuteAnswer(m, calls, count);
    assert Answer(limits, calls, count);
    DecidesAsFullLog(limits, calls, count);
  }

  /** With less than `k` minutes' worth of room in the window of `k` minutes, the bursts run into its
      limit although the one-minute window accepts them all. */
  lemma BurstsRefused(limits: RateLimit, count: nat, k: nat)
    requires limits.perMinute > 0 && count < k * limits.perMinute
    requires (k == 60 && count == limits.perHour) || (k == 1440 && count == limits.perDay)
    ensures !OnlyMinutesMatter(limits)
  {
    if OnlyMinutesMatter(limits) {
      BurstsAdmitted(limits, count);
      BurstsFill(limits.perMinute, count, k);
      assert false;
    }
  }

  lemma {:induction false} SameLogsIf(limits: RateLimit, calls: seq<Call>, id: string)
    requires Ordered(calls) && OnlyMinutesMatter(limits)
    ensures Log(limits, calls, id) == MinuteLog(limits.perMinute, calls, id)
  {
    if calls != [] {
      var n := |calls| - 1;
      SameLogsIf(limits, calls[..n], id);
      DecidesAsFullLog(limits, calls, n);
      assert Answer(limits, calls, n) == MinuteAnswer(limits.perMinute, calls, n);
    }
  }

  /** The hourly and daily checks are redundant exactly when they leave room for an hour and a day of
      full minutes. */
  lemma RedundantIffRoomForMinutes(limits: RateLimit)
    ensures OnlyMinutesMatter(limits) <==>
            limits.perMinute == 0
            || (limits.perHour >= 60 * limits.perMinute && limits.perDay >= 1440 * limits.perMinute)
  {
    if limits.perMinute > 0 && limits.perHour < 60 * limits.perMinute {
      BurstsRefused(limits, limits.perHour, 60);
    } else if limits.perMinute > 0 && limits.perDay < 1440 * limits.perMinute {
      BurstsRefused(limits, limits.perDay, 1440);
    } else {
      forall calls: seq<Call>, i: nat | Ordered(calls) && i < |calls|
        ensures Answer(limits, calls, i) == MinuteAnswer(limits.perMinute, calls, i)
      {
        DecidesAsFullLog(limits, calls, i);
        SameLogs(limits, calls[..i], calls[i].id);
        AdmitsByMinute(limits, calls[..i], calls[i].id, calls[i].at);
      }
    }
  }

  /** The limits `create_router` derives from the configured one, in wrapping 32-bit arithmetic. */
  function GatewayLimits(perMinute: nat): RateLimit {
    var perHour := AsU32(perMinute * 60);
    RateLimit(perMinute, perHour, AsU32(perHour * 24))
  }

  /** The gateway's limiter decides by the one-minute window alone, on every run, exactly when the
      daily limit it derives does not overflow 32 bits. */
  lemma GatewayDecidesByMinute(perMinute: nat)
    requires perMinute < U32
    ensures OnlyMinutesMatter(GatewayLimits(perMinute)) <==> 1440 * perMinute < U32
  {
    RedundantIffRoomForMinutes(GatewayLimits(perMinute));
  }
}
