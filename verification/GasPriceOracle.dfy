/** The oracle object of src/utils/gas.rs: the current pair, the bounded history and its statistics. */
module GasPriceOracle {
  import opened Division
  import opened Wrappers
  import opened GasOracle

  datatype Snapshot = Snapshot(fees: Fees, blockNumber: nat)

  datatype GasPriceInfo = GasPriceInfo(fees: Fees, baseFee: nat, blockNumber: nat)

  /** The node's latest block; either field may be missing from the reply. */
  datatype Block = Block(number: Option<nat>, baseFee: Option<nat>)

  datatype Fetch = Updated(info: GasPriceInfo) | Failed | Aborted

  datatype Trend = Stable | Increasing | Decreasing

  datatype Statistics = Statistics(current: Fees, average: nat, least: nat, greatest: nat, trend: Trend)

  /** The outcome of a fetch, given what the node replies to the two questions it is asked. */
  function FetchOf(c: Config, reply: Option<Block>, gasPriceKnown: bool): Fetch {
    if reply.None? || reply.value.number.None? then Failed
    else if reply.value.number.value >= U64 then Aborted
    else if !gasPriceKnown then Failed
    else
      var baseFee := if reply.value.baseFee.Some? then reply.value.baseFee.value else DEFAULT_BASE_FEE;
      match Fetched(c, baseFee)
      case None => Aborted
      case Some(fees) => Updated(GasPriceInfo(fees, baseFee, reply.value.number.value))
  }

  function Pushed(history: seq<Snapshot>, s: Snapshot): seq<Snapshot> {
    var longer := history + [s];
    if |longer| > MAX_HISTORY_SIZE then longer[1..] else longer
  }

  function Sum(history: seq<Snapshot>): nat {
    if history == [] then 0 else Sum(history[..|history| - 1]) + history[|history| - 1].fees.maxFee
  }

  /** 256-bit addition. */
  function AddWords(a: nat, b: nat): nat {
    (a + b) % U256
  }

  function SumOfWords(history: seq<Snapshot>): nat {
    if history == [] then 0 else
      AddWords(SumOfWords(history[..|history| - 1]), history[|history| - 1].fees.maxFee)
  }

  ghost predicate IsLeast(x: nat, history: seq<Snapshot>) {
    && (exists i :: 0 <= i < |history| && history[i].fees.maxFee == x)
    && (forall i :: 0 <= i < |history| ==> x <= history[i].fees.maxFee)
  }

  ghost predicate IsGreatest(x: nat, history: seq<Snapshot>) {
    && (exists i :: 0 <= i < |history| && history[i].fees.maxFee == x)
    && (forall i :: 0 <= i < |history| ==> history[i].fees.maxFee <= x)
  }

  /** All maximum fees fit a word. */
  ghost predicate Words(history: seq<Snapshot>) {
    forall i :: 0 <= i < |history| ==> history[i].fees.maxFee < U256
  }

  class GasPriceOracle {
    const config: Config
    var current: GasPriceInfo
    var history: seq<Snapshot>

    constructor (config: Config)
      ensures this.config == config && history == []
      ensures current == GasPriceInfo(Fees(20_000_000_000, 2_000_000_000), 20_000_000_000, 0)
    {
      this.config, current, history := config, GasPriceInfo(INITIAL, DEFAULT_BASE_FEE, 0), [];
    }

    method FetchGasPrice(reply: Option<Block>, gasPriceKnown: bool) returns (outcome: Fetch)
      modifies this
      ensures outcome == FetchOf(config, reply, gasPriceKnown)
      ensures outcome.Updated? ==>
                && current == outcome.info
                && history == Pushed(old(history), Snapshot(outcome.info.fees, outcome.info.blockNumber))
      ensures !outcome.Updated? ==> current == old(current) && history == old(history)
    {
      if reply.None? || reply.value.number.None? {
        return Failed;
      }
      if reply.value.number.value >= U64 {
        return Aborted;
      }
      var baseFee := if reply.value.baseFee.Some? then reply.value.baseFee.value else DEFAULT_BASE_FEE;
      if !gasPriceKnown {
        return Failed;
      }
      var maxFee := (baseFee + TIP) % U256;
      if maxFee >= U64 {
        return Aborted;
      }
      var adjusted := Scale(maxFee, config.multiplier);
      maxFee := Min(Max(adjusted, config.minPrice), config.maxPrice);
      var priorityFee := Max(TIP, config.minPrice);
      var info := GasPriceInfo(Fees(maxFee, priorityFee), baseFee, reply.value.number.value);
      current := info;
      history := history + [Snapshot(info.fees, info.blockNumber)];
      if |history| > MAX_HISTORY_SIZE {
        history := history[1..];
      }
      return Updated(info);
    }

    /** Least, greatest and average of the history; the sum is a word and wraps. */
    method GetStatistics() returns (r: Statistics)
      requires Words(history)
      ensures r.current == current.fees
      ensures history == [] ==> r.average == r.least == r.greatest == current.fees.maxFee && r.trend == Stable
      ensures history != [] ==> IsLeast(r.least, history) && IsGreatest(r.greatest, history)
                                && r.average == SumOfWords(history) / |history|
      ensures r.trend == Increasing <==>
              |history| >= 2 && history[|history| - 1].fees.maxFee > history[|history| - 2].fees.maxFee
      ensures r.trend == Decreasing <==>
              |history| >= 2 && history[|history| - 1].fees.maxFee < history[|history| - 2].fees.maxFee
    {
      hide IsLeast, IsGreatest, Words, AddWords;
      if history == [] {
        var f := current.fees.maxFee;
        return Statistics(current.fees, f, f, f, Stable);
      }
      var total: nat, least: nat, greatest: nat := 0, U256 - 1, 0;
      for i := 0 to |history|
        invariant total == SumOfWords(history[..i])
        invariant i > 0 ==> IsLeast(least, history[..i]) && IsGreatest(greatest, history[..i])
        invariant i == 0 ==> least == U256 - 1 && greatest == 0
      {
        var fee := history[i].fees.maxFee;
        assert history[..i + 1][..i] == history[..i];
        LeastExtended(history, i, least);
        GreatestExtended(history, i, greatest);
        total := AddWords(total, fee);
        if fee < least {
          least := fee;
        }
        if fee > greatest {
          greatest := fee;
        }
      }
      assert history[..|history|] == history;
      var trend := Stable;
      if |history| >= 2 {
        var recent, previous := history[|history| - 1], history[|history| - 2];
        if recent.fees.maxFee > previous.fees.maxFee {
          trend := Increasing;
        } else if recent.fees.maxFee < previous.fees.maxFee {
          trend := Decreasing;
        }
      }
      return Statistics(current.fees, total / |history|, least, greatest, trend);
    }
  }

  lemma LeastExtended(history: seq<Snapshot>, i: nat, least: nat)
    requires i < |history| && Words(history)
    requires if i > 0 then IsLeast(least, history[..i]) else least == U256 - 1
    ensures IsLeast(Min(least, history[i].fees.maxFee), history[..i + 1])
  {
    var longer := history[..i + 1];
    if i == 0 || history[i].fees.maxFee <= least {
      assert longer[i].fees.maxFee == Min(least, history[i].fees.maxFee);
    } else {
      var j :| 0 <= j < i && history[..i][j].fees.maxFee == least;
      assert longer[j].fees.maxFee == least;
    }
    assert forall k :: 0 <= k < i ==> longer[k] == history[..i][k];
  }

  lemma GreatestExtended(history: seq<Snapshot>, i: nat, greatest: nat)
    requires i < |history|
    requires if i > 0 then IsGreatest(greatest, history[..i]) else greatest == 0
    ensures IsGreatest(Max(greatest, history[i].fees.maxFee), history[..i + 1])
  {
    var longer := history[..i + 1];
    if i == 0 || history[i].fees.maxFee >= greatest {
      assert longer[i].fees.maxFee == Max(greatest, history[i].fees.maxFee);
    } else {
      var j :| 0 <= j < i && history[..i][j].fees.maxFee == greatest;
      assert longer[j].fees.maxFee == greatest;
    }
    assert forall k :: 0 <= k < i ==> longer[k] == history[..i][k];
  }

  // ----- Runs ---------------------------------------------------------------------------------------

  /** The reply's base fee does not overflow 256 bits when the tip is added. */
  predicate Plausible(reply: Option<Block>) {
    reply.Some? && reply.value.baseFee.Some? ==> reply.value.baseFee.value + TIP < U256
  }

  /** The pair the oracle holds after any sequence of replies, abortive ones included. */
  function FeesAfter(c: Config, replies: seq<(Option<Block>, bool)>): Fees {
    if replies == [] then INITIAL else
      var (reply, gasPriceKnown) := replies[|replies| - 1];
      var outcome := FetchOf(c, reply, gasPriceKnown);
      if outcome.Updated? then outcome.info.fees else FeesAfter(c, replies[..|replies| - 1])
  }

  /** The reply's base fee is a 256-bit word, as its type says. */
  predicate IsWord(reply: Option<Block>) {
    reply.Some? && reply.value.baseFee.Some? ==> reply.value.baseFee.value < U256
  }

  /** When a fetch fails, when it aborts its caller, and what it reports otherwise: a missing base fee counts as
      20 gwei. */
  lemma FetchOutcome(c: Config, reply: Option<Block>, gasPriceKnown: bool)
    requires IsWord(reply)
    ensures var outcome := FetchOf(c, reply, gasPriceKnown);
            if reply.None? || reply.value.number.None? then outcome.Failed?
            else
              var number, baseFee := reply.value.number.value, reply.value.baseFee.Or(Some(20_000_000_000)).value;
              && (outcome.Failed? <==> number < 0x1_0000_0000_0000_0000 && !gasPriceKnown)
              && (outcome.Updated? <==> && number < 0x1_0000_0000_0000_0000 && gasPriceKnown
                                        && WithTip(baseFee) < 0x1_0000_0000_0000_0000)
              && (outcome.Updated? ==> && outcome.info.blockNumber == number && outcome.info.baseFee == baseFee
                                       && Fetched(c, baseFee) == Some(outcome.info.fees))
  {
    hide Scale;
  }

  /** So over every run what the executor sends for a validated request is well-formed, if the configuration
      leaves room for the tip, from the initial pair on and whatever fails in between.  If base fees may wrap
      around, the configured minimum has to reach the tip, too. */
  lemma {:induction false} SentPairsWellFormed(c: Config, replies: seq<(Option<Block>, bool)>, request: Fees,
                                               p: Priority)
    requires c.minPrice < U64 && c.maxPrice < U64 && RoomForTip(c)
    requires forall i :: 0 <= i < |replies| ==> IsWord(replies[i].0)
    requires c.minPrice >= TIP || forall i :: 0 <= i < |replies| ==> Plausible(replies[i].0)
    requires ValidGasPrices(request)
    ensures Chosen(c, Some(FeesAfter(c, replies)), request, p).Some?
    ensures WellFormed(Chosen(c, Some(FeesAfter(c, replies)), request, p).value)
  {
    hide Chosen, Recommended, Held, HeldFromAnyWord, RoomForTip;
    var current := FeesAfter(c, replies);
    if c.minPrice >= TIP {
      FeesHeldFromAnyWord(c, replies);
      FromAnyWord(c, current, p);
    } else {
      FeesHeld(c, replies);
      RecommendedFromHeld(c, current, p);
    }
    ChosenFrom(c, current, request, p);
  }

  lemma {:induction false} FeesHeldFromAnyWord(c: Config, replies: seq<(Option<Block>, bool)>)
    requires forall i :: 0 <= i < |replies| ==> IsWord(replies[i].0)
    ensures HeldFromAnyWord(c, FeesAfter(c, replies))
  {
    if replies != [] {
      hide Fetched;
      FeesHeldFromAnyWord(c, replies[..|replies| - 1]);
      assert IsWord(replies[|replies| - 1].0);
    }
  }

  lemma {:induction false} FeesHeld(c: Config, replies: seq<(Option<Block>, bool)>)
    requires forall i :: 0 <= i < |replies| ==> Plausible(replies[i].0)
    ensures Held(c, FeesAfter(c, replies))
  {
    if replies != [] {
      hide Fetched;
      FeesHeld(c, replies[..|replies| - 1]);
      assert Plausible(replies[|replies| - 1].0);
    }
  }

  /** The history after a run of successful fetches. */
  function Kept(snapshots: seq<Snapshot>): seq<Snapshot> {
    if snapshots == [] then [] else Pushed(Kept(snapshots[..|snapshots| - 1]), snapshots[|snapshots| - 1])
  }

  /** Over any run the history is exactly the most recent snapshots, 1000 of them once there are that many. */
  lemma {:induction false} HistoryIsRecent(snapshots: seq<Snapshot>)
    ensures |Kept(snapshots)| == Min(|snapshots|, 1000)
    ensures Kept(snapshots) == snapshots[|snapshots| - Min(|snapshots|, 1000)..]
  {
    if snapshots != [] {
      var front := snapshots[..|snapshots| - 1];
      HistoryIsRecent(front);
      PushedRecent(front, snapshots[|snapshots| - 1]);
      assert snapshots == front + [snapshots[|snapshots| - 1]];
      hide Pushed;
    }
  }

  /** Pushing onto the recent part of a list gives the recent part of the longer list. */
  lemma PushedRecent(snapshots: seq<Snapshot>, s: Snapshot)
    ensures var n, m := |snapshots|, |snapshots| + 1;
            Pushed(snapshots[n - Min(n, MAX_HISTORY_SIZE)..], s) == (snapshots + [s])[m - Min(m, MAX_HISTORY_SIZE)..]
  {
    if |snapshots| < MAX_HISTORY_SIZE {
      assert snapshots[0..] == snapshots && (snapshots + [s])[0..] == snapshots + [s];
    } else {
      var k := |snapshots| - MAX_HISTORY_SIZE;
      assert (snapshots[k..] + [s])[1..] == (snapshots + [s])[k + 1..];
    }
  }

  lemma {:induction false} SumBetween(history: seq<Snapshot>, low: nat, high: nat)
    requires forall i :: 0 <= i < |history| ==> low <= history[i].fees.maxFee <= high
    ensures |history| * low <= Sum(history) <= |history| * high
  {
    if history != [] {
      var n := |history|;
      SumBetween(history[..n - 1], low, high);
      assert (n - 1) * low + low == n * low && (n - 1) * high + high == n * high;
    }
  }

  /** The sum of words is the exact one, wrapped. */
  lemma {:induction false} SumWraps(history: seq<Snapshot>)
    ensures SumOfWords(history) == Sum(history) % U256
  {
    if history != [] {
      var n := |history| - 1;
      SumWraps(history[..n]);
      WrapOnce(Sum(history[..n]), history[n].fees.maxFee);
    }
  }

  lemma SumDoesNotWrap(history: seq<Snapshot>)
    requires Sum(history) < U256
    ensures SumOfWords(history) == Sum(history)
  {
    hide Sum, SumOfWords;
    SumWraps(history);
  }

  lemma WrapOnce(a: nat, b: nat)
    ensures (a % U256 + b) % U256 == (a + b) % U256
  {
    var q := a / U256;
    assert a == q * U256 + a % U256;
    assert a + b == q * U256 + (a % U256 + b);
  }

  /** With 64-bit bounds, which is what the configuration holds, the sum cannot wrap, and the reported average
      lies between the reported extremes. */
  lemma AverageBetweenExtremes(history: seq<Snapshot>, least: nat, greatest: nat)
    requires 0 < |history| <= MAX_HISTORY_SIZE
    requires IsLeast(least, history) && IsGreatest(greatest, history) && greatest < U64
    ensures SumOfWords(history) == Sum(history)
    ensures least <= SumOfWords(history) / |history| <= greatest
  {
    SumBetween(history, least, greatest);
    hide Sum, SumOfWords, IsLeast, IsGreatest;
    Scaled(|history|, MAX_HISTORY_SIZE, greatest);
    SumDoesNotWrap(history);
    QuotientBetween(Sum(history), |history|, least, greatest);
  }

  lemma Scaled(n: nat, m: nat, x: nat)
    requires n <= m
    ensures n * x <= m * x
  {
  }
}
