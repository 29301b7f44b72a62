/** The per-identifier request counters of src/api/middleware.rs, with their running average in whole
    milliseconds. */
module RequestStats {
  import opened Division
  import opened Wrappers

  datatype RequestCounter = RequestCounter(
    total: nat, successful: nat, failed: nat, lastRequestTime: Option<int>, averageResponseTime: nat)

  datatype Request = Request(success: bool, responseTime: nat, time: int)

  const FRESH := RequestCounter(0, 0, 0, None, 0)

  function Counted(c: RequestCounter, r: Request): RequestCounter {
    var n := c.total + 1;
    RequestCounter(n, if r.success then c.successful + 1 else c.successful,
                   if r.success then c.failed else c.failed + 1, Some(r.time),
                   (c.averageResponseTime * (n - 1) + r.responseTime) / n)
  }

  function CounterOf(counters: map<string, RequestCounter>, identifier: string): RequestCounter {
    if identifier in counters then counters[identifier] else FRESH
  }

  class MiddlewareManager {
    var requestCounters: map<string, RequestCounter>

    constructor ()
      ensures requestCounters == map[]
    {
      requestCounters := map[];
    }

    method RecordRequest(identifier: string, success: bool, responseTime: nat, now: int)
      modifies this
      ensures requestCounters == old(requestCounters)[
        identifier := Counted(CounterOf(old(requestCounters), identifier), Request(success, responseTime, now))]
    {
      var counter := CounterOf(requestCounters, identifier);
      counter := counter.(total := counter.total + 1);
      if success {
        counter := counter.(successful := counter.successful + 1);
      } else {
        counter := counter.(failed := counter.failed + 1);
      }
      counter := counter.(lastRequestTime := Some(now));
      var totalTime := counter.averageResponseTime * (counter.total - 1) + responseTime;
      counter := counter.(averageResponseTime := totalTime / counter.total);
      requestCounters := requestCounters[identifier := counter];
    }
  }

  // ----- Runs ---------------------------------------------------------------------------------------

  /** The counter of one identifier after its requests. */
  function After(requests: seq<Request>): RequestCounter {
    if requests == [] then FRESH else Counted(After(requests[..|requests| - 1]), requests[|requests| - 1])
  }

  function Sum(requests: seq<Request>): nat {
    if requests == [] then 0 else Sum(requests[..|requests| - 1]) + requests[|requests| - 1].responseTime
  }

  function Successes(requests: seq<Request>): nat {
    if requests == [] then 0 else
      Successes(requests[..|requests| - 1]) + if requests[|requests| - 1].success then 1 else 0
  }

  /** Every request is counted once, on the side its outcome belongs to, and the last one leaves its time. */
  lemma {:induction false} CountsAddUp(requests: seq<Request>)
    ensures var c := After(requests);
            && c.total == |requests| && c.successful == Successes(requests)
            && c.successful + c.failed == c.total
            && c.lastRequestTime == if requests == [] then None else Some(requests[|requests| - 1].time)
  {
    if requests != [] {
      CountsAddUp(requests[..|requests| - 1]);
    }
  }

  /** 0 + 1 + ... + (n - 1). */
  function Triangular(n: nat): nat {
    if n == 0 then 0 else Triangular(n - 1) + (n - 1)
  }

  lemma {:induction false} TriangularClosed(n: nat)
    ensures Triangular(n) == n * (n - 1) / 2
  {
    if n > 0 {
      TriangularClosed(n - 1);
      assert n * (n - 1) == (n - 1) * (n - 2) + 2 * (n - 1);
    }
  }

  /** Truncation only ever loses, and at most n(n-1)/2 in all: each of the n divisions loses less than n, and
      what it loses is carried along. */
  lemma {:induction false} AverageDrift(requests: seq<Request>)
    ensures var n, avg := |requests|, After(requests).averageResponseTime;
            0 <= Sum(requests) - n * avg <= n * (n - 1) / 2
  {
    TriangularClosed(|requests|);
    DriftInduction(requests);
  }

  lemma {:induction false} DriftInduction(requests: seq<Request>)
    ensures 0 <= Sum(requests) - |requests| * After(requests).averageResponseTime <= Triangular(|requests|)
  {
    var n := |requests|;
    if n > 0 {
      var front, x := requests[..n - 1], requests[n - 1].responseTime;
      DriftInduction(front);
      CountsAddUp(front);
      var avg := After(front).averageResponseTime;
      var carried := Commuted(avg, n - 1);
      var q, nq := Divided(carried + x, n);
    }
  }

  lemma Commuted(a: nat, b: nat) returns (c: nat)
    ensures c == a * b == b * a
  {
    c := a * b;
  }

  lemma Divided(total: nat, n: nat) returns (q: nat, nq: nat)
    requires n > 0
    ensures q == total / n && nq == n * q && total - (n - 1) <= nq <= total
  {
    q := total / n;
    nq := n * q;
  }

  /** What the divisions have dropped: the remainder of each, under the number of requests it divides by. */
  function Dropped(requests: seq<Request>): nat {
    if requests == [] then 0 else
      var n := |requests|;
      var before := After(requests[..n - 1]).averageResponseTime;
      Dropped(requests[..n - 1]) + (before * (n - 1) + requests[n - 1].responseTime) % n
  }

  /** The drift is exactly the sum of the dropped remainders. */
  lemma {:induction false} DriftIsDropped(requests: seq<Request>)
    ensures Sum(requests) - |requests| * After(requests).averageResponseTime == Dropped(requests)
  {
    var n := |requests|;
    if n > 0 {
      var front, x := requests[..n - 1], requests[n - 1].responseTime;
      DriftIsDropped(front);
      CountsAddUp(front);
      var avg := After(front).averageResponseTime;
      assert After(requests) == Counted(After(front), requests[n - 1]);
      assert Dropped(requests) == Dropped(front) + (avg * (n - 1) + x) % n;
      hide After, Dropped;
      DroppedByOne(Sum(front), n, avg, x, Dropped(front));
    }
  }

  /** One division moves its remainder from the average to what is dropped. */
  lemma DroppedByOne(sum: nat, n: nat, avg: nat, x: nat, dropped: nat)
    requires n > 0 && sum - (n - 1) * avg == dropped
    ensures sum + x - n * ((avg * (n - 1) + x) / n) == dropped + (avg * (n - 1) + x) % n
  {
    var carried := Commuted(avg, n - 1);
    Remainder(carried + x, n);
  }

  lemma Remainder(total: nat, n: nat)
    requires n > 0
    ensures total - n * (total / n) == total % n
  {
  }

  /** So the reported average is the truncated exact one if and only if the dropped remainders make less than
      one unit for each request. */
  lemma AverageExactIffLittleDropped(requests: seq<Request>)
    requires requests != []
    ensures After(requests).averageResponseTime == Sum(requests) / |requests| <==> Dropped(requests) < |requests|
  {
    DriftIsDropped(requests);
    hide Sum, After, Dropped;
    QuotientIs(Sum(requests), |requests|, After(requests).averageResponseTime);
  }

  lemma QuotientIs(total: nat, n: nat, q: nat)
    requires n > 0 && n * q <= total
    ensures q == total / n <==> total - n * q < n
  {
    var d := total / n;
    assert n * d <= total < n * d + n;
    if total - n * q < n {
      Cancel(n, q, d + 1);
      Cancel(n, d, q + 1);
    }
  }

  /** The intermediate total never exceeds the exact sum, so it fits wherever the exact sum does. */
  lemma TotalTimeFits(requests: seq<Request>, next: Request)
    ensures After(requests).averageResponseTime * |requests| + next.responseTime <= Sum(requests + [next])
  {
    AverageDrift(requests);
    assert (requests + [next])[..|requests|] == requests;
    assert |requests| * After(requests).averageResponseTime == After(requests).averageResponseTime * |requests|;
  }

  /** The average lies between any bounds of the samples, in particular the least and the greatest. */
  lemma {:induction false} AverageBetween(requests: seq<Request>, low: nat, high: nat)
    requires requests != []
    requires forall i :: 0 <= i < |requests| ==> low <= requests[i].responseTime <= high
    ensures low <= After(requests).averageResponseTime <= high
  {
    var front := requests[..|requests| - 1];
    CountsAddUp(front);
    if front != [] {
      AverageBetween(front, low, high);
    }
    CountedBetween(After(front), requests[|requests| - 1], low, high);
  }

  lemma CountedBetween(c: RequestCounter, r: Request, low: nat, high: nat)
    requires c.total == 0 || low <= c.averageResponseTime <= high
    requires low <= r.responseTime <= high
    ensures low <= Counted(c, r).averageResponseTime <= high
  {
    MeanBetween(c.total, c.averageResponseTime, r.responseTime, low, high);
  }

  /** A mean of k times x and once y. */
  lemma MeanBetween(k: nat, x: nat, y: nat, low: nat, high: nat)
    requires (k == 0 || low <= x <= high) && low <= y <= high
    ensures low <= (x * k + y) / (k + 1) <= high
  {
    Scaled(k, low, x, high);
    Next(k, low);
    Next(k, high);
    QuotientBetween(x * k + y, k + 1, low, high);
  }

  lemma Scaled(k: nat, low: nat, x: nat, high: nat)
    requires k == 0 || low <= x <= high
    ensures k * low <= x * k <= k * high
  {
  }

  lemma Next(k: nat, x: nat)
    ensures (k + 1) * x == k * x + x
  {
  }

  /** Response times 0, 1, ..., n - 1. */
  function Rising(n: nat): seq<Request> {
    if n == 0 then [] else Rising(n - 1) + [Request(true, n - 1, 0)]
  }

  /** The bound on the drift is reached for every n: the average of 0, 1, ..., n - 1 is reported as 0. */
  lemma {:induction false} DriftIsReached(n: nat)
    ensures |Rising(n)| == n && After(Rising(n)).averageResponseTime == 0
    ensures Sum(Rising(n)) == n * (n - 1) / 2
  {
    RisingAverages(n);
    TriangularClosed(n);
  }

  lemma {:induction false} RisingAverages(n: nat)
    ensures |Rising(n)| == n && After(Rising(n)).averageResponseTime == 0
    ensures Sum(Rising(n)) == Triangular(n)
  {
    if n > 0 {
      RisingAverages(n - 1);
      CountsAddUp(Rising(n - 1));
      assert Rising(n)[..n - 1] == Rising(n - 1);
      assert After(Rising(n)) == Counted(After(Rising(n - 1)), Request(true, n - 1, 0));
      hide After;
      SmallQuotient(n - 1, n);
    }
  }

  lemma SmallQuotient(a: nat, n: nat)
    requires a < n
    ensures a / n == 0
  {
  }

  // ----- Many identifiers ---------------------------------------------------------------------------

  /** The counters after requests of several identifiers, as `RecordRequest` maintains them. */
  function Collected(calls: seq<(string, Request)>): map<string, RequestCounter> {
    if calls == [] then map[] else
      var before := Collected(calls[..|calls| - 1]);
      var (id, r) := calls[|calls| - 1];
      before[id := Counted(CounterOf(before, id), r)]
  }

  /** The requests of one identifier among them. */
  function RequestsOf(calls: seq<(string, Request)>, id: string): seq<Request> {
    if calls == [] then [] else
      var before := RequestsOf(calls[..|calls| - 1], id);
      var (other, r) := calls[|calls| - 1];
      if other == id then before + [r] else before
  }

  /** However the identifiers' requests interleave, each counter is that of the identifier's own requests. */
  lemma {:induction false} CountersAreIndependent(calls: seq<(string, Request)>, id: string)
    ensures CounterOf(Collected(calls), id) == After(RequestsOf(calls, id))
  {
    if calls != [] {
      var front := calls[..|calls| - 1];
      var (other, r) := calls[|calls| - 1];
      CountersAreIndependent(front, id);
      if other == id {
        var requests := RequestsOf(front, id);
        assert (requests + [r])[..|requests|] == requests;
      }
      hide Counted;
    }
  }
}
