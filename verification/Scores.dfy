/**
 * Differences of snapshots and the scores read off them (src/observer/snapshot.rs:152-219),
 * and the histograms rendered from the buckets (src/observer/prometheus.rs:268-360).
 */
module Scores {
  import opened Upstreams
  import opened Metrics
  import opened Observer

  function Minus(a: nat, b: nat): nat {
    if a >= b then a - b else 0
  }

  function Times(m: nat, n: nat): nat {
    m * n
  }

  function Share(total: nat, n: nat): nat
    requires n > 0
  {
    total / n
  }

  datatype Diff = Diff(
    success: nat,
    unreachable: nat,
    readFailed: nat,
    errorStatus: nat,
    rpcError: nat,
    rpcCallerFault: nat,
    abandoned: nat,
    retryableFailures: nat,
    micros: nat,
    retryableMicros: nat)
  {
    function Error(): nat {
      errorStatus + readFailed + unreachable + rpcError
    }

    function Success(): nat {
      success + rpcCallerFault
    }

    function Answered(): nat {
      Error() + Success()
    }

    function Calls(): nat {
      Answered() + abandoned
    }

    /** Floating-point in the source; an exact fraction here. */
    function ErrorRate(): real {
      if Answered() == 0 then 0.0 else Error() as real / Answered() as real
    }

    function LatencyScore(penalty: nat): Option<nat> {
      if Calls() == 0 then None
      else Some(Share(Minus(micros, retryableMicros) + Times(retryableFailures, penalty), Calls()))
    }
  }

  function DiffOf(now: Snapshot, base: Snapshot): Diff {
    Diff(
      Minus(now.success, base.success),
      Minus(now.unreachable, base.unreachable),
      Minus(now.readFailed, base.readFailed),
      Minus(now.errorStatus, base.errorStatus),
      Minus(now.rpcError, base.rpcError),
      Minus(now.rpcCallerFault, base.rpcCallerFault),
      Minus(now.abandoned, base.abandoned),
      Minus(now.retryableFailures, base.retryableFailures),
      Minus(now.micros, base.micros),
      Minus(now.retryableMicros, base.retryableMicros))
  }

  // What the differences count

  function AttemptsOn(u: UpstreamId): Metric {
    Statistic(AttemptDuration(u), Count)
  }

  /** A difference of two snapshots counts the records between them. */
  lemma DiffCounts(base: seq<Record>, window: seq<Record>, u: UpstreamId)
    ensures DiffOf(SnapshotOf(base + window, u), SnapshotOf(base, u)) ==
            Diff(
              Total(window, Outcomes(u, Kind.Success)),
              Total(window, Outcomes(u, Kind.Unreachable)),
              Total(window, Outcomes(u, Kind.ReadFailed)),
              Total(window, Outcomes(u, Kind.ErrorStatus)),
              Total(window, Outcomes(u, Kind.RpcError)),
              Total(window, Outcomes(u, Kind.RpcCallerFault)),
              Total(window, Outcomes(u, Kind.Abandoned)),
              Total(window, Retryables(u)),
              Total(window, Statistic(AttemptDuration(u), Sum)),
              Total(window, RetryableMicros(u)))
  {
    hide Total;
    forall m {
      TotalConcat(base, window, m);
    }
  }

  lemma OneOutcomeEach(r: Record, u: UpstreamId)
    ensures Measure(AttemptsOn(u), r) ==
              Measure(Outcomes(u, Kind.Success), r) + Measure(Outcomes(u, Kind.Unreachable), r)
              + Measure(Outcomes(u, Kind.ReadFailed), r) + Measure(Outcomes(u, Kind.ErrorStatus), r)
              + Measure(Outcomes(u, Kind.RpcError), r) + Measure(Outcomes(u, Kind.RpcCallerFault), r)
              + Measure(Outcomes(u, Kind.Abandoned), r)
    ensures Measure(Retryables(u), r) <=
              Measure(Outcomes(u, Kind.ErrorStatus), r) + Measure(Outcomes(u, Kind.ReadFailed), r)
              + Measure(Outcomes(u, Kind.Unreachable), r) + Measure(Outcomes(u, Kind.RpcError), r)
  {
  }

  /** Every attempt adds one to exactly one of the seven outcome counters, and a
      retryable failure to one of the four that count as errors. */
  lemma {:induction false} OutcomesPartition(log: seq<Record>, u: UpstreamId)
    ensures Total(log, AttemptsOn(u)) ==
              Total(log, Outcomes(u, Kind.Success)) + Total(log, Outcomes(u, Kind.Unreachable))
              + Total(log, Outcomes(u, Kind.ReadFailed)) + Total(log, Outcomes(u, Kind.ErrorStatus))
              + Total(log, Outcomes(u, Kind.RpcError)) + Total(log, Outcomes(u, Kind.RpcCallerFault))
              + Total(log, Outcomes(u, Kind.Abandoned))
    ensures Total(log, Retryables(u)) <=
              Total(log, Outcomes(u, Kind.ErrorStatus)) + Total(log, Outcomes(u, Kind.ReadFailed))
              + Total(log, Outcomes(u, Kind.Unreachable)) + Total(log, Outcomes(u, Kind.RpcError))
  {
    hide Total, Measure;
    forall m { TotalNone(m); }
    if log != [] {
      var init, r := log[..|log| - 1], log[|log| - 1];
      assert log == init + [r];
      OutcomesPartition(init, u);
      OneOutcomeEach(r, u);
      forall m { TotalPush(init, r, m); }
    }
  }

  lemma OneCostEach(r: Record, u: UpstreamId, penalty: nat)
    ensures Measure(RetryableMicros(u), r) <= Measure(Statistic(AttemptDuration(u), Sum), r)
    ensures Measure(Costs(u, penalty), r) ==
            Measure(Statistic(AttemptDuration(u), Sum), r) - Measure(RetryableMicros(u), r)
            + Measure(Retryables(u), r) * penalty
  {
  }

  lemma {:induction false} CostsAreCharged(log: seq<Record>, u: UpstreamId, penalty: nat)
    ensures Total(log, RetryableMicros(u)) <= Total(log, Statistic(AttemptDuration(u), Sum))
    ensures Total(log, Costs(u, penalty)) ==
            Total(log, Statistic(AttemptDuration(u), Sum)) - Total(log, RetryableMicros(u))
            + Total(log, Retryables(u)) * penalty
  {
    hide Total, Measure;
    forall m { TotalNone(m); }
    if log != [] {
      var init, r := log[..|log| - 1], log[|log| - 1];
      assert log == init + [r];
      CostsAreCharged(init, u, penalty);
      OneCostEach(r, u, penalty);
      forall m { TotalPush(init, r, m); }
      AddUnit(Total(init, Retryables(u)), Measure(Retryables(u), r), penalty);
    }
  }

  function Score(base: seq<Record>, window: seq<Record>, u: UpstreamId, penalty: nat): Option<nat> {
    DiffOf(SnapshotOf(base + window, u), SnapshotOf(base, u)).LatencyScore(penalty)
  }

  /** For every log and every window at its end, the score read off the counters is the
      mean cost of the attempts in the window, rounded down: an attempt costs the time it
      took, dropped ones included, and a retryable failure costs the penalty. */
  lemma ScoreIsTheMeanCost(base: seq<Record>, window: seq<Record>, u: UpstreamId, penalty: nat)
    ensures var n := Total(window, AttemptsOn(u));
            Score(base, window, u, penalty) ==
              if n == 0 then None else Some(Total(window, Costs(u, penalty)) / n)
    ensures var d := DiffOf(SnapshotOf(base + window, u), SnapshotOf(base, u));
            d.retryableFailures <= d.Error() && d.Calls() == Total(window, AttemptsOn(u))
  {
    hide Total;
    DiffCounts(base, window, u);
    OutcomesPartition(window, u);
    CostsAreCharged(window, u, penalty);
  }

  lemma Scale(m: nat, n: nat, unit: nat)
    requires m <= n
    ensures m * unit <= n * unit
  {
  }

  lemma AddUnit(m: nat, k: nat, unit: nat)
    ensures (m + k) * unit == m * unit + k * unit
  {
  }

  lemma OneBoundEach(r: Record, u: UpstreamId, penalty: nat, least: nat, most: nat)
    requires r.Attempt? && r.upstream == u ==> least <= r.sample.Cost(penalty) <= most
    ensures Measure(AttemptsOn(u), r) * least <= Measure(Costs(u, penalty), r) <= Measure(AttemptsOn(u), r) * most
  {
  }

  lemma {:induction false} CostsAreBounded(log: seq<Record>, u: UpstreamId, penalty: nat, least: nat, most: nat)
    requires forall r :: r in log && r.Attempt? && r.upstream == u ==> least <= r.sample.Cost(penalty) <= most
    ensures Total(log, AttemptsOn(u)) * least <= Total(log, Costs(u, penalty)) <= Total(log, AttemptsOn(u)) * most
  {
    hide Total, Measure;
    TotalNone(AttemptsOn(u));
    TotalNone(Costs(u, penalty));
    if log != [] {
      var init, r := log[..|log| - 1], log[|log| - 1];
      assert log == init + [r];
      CostsAreBounded(init, u, penalty, least, most);
      OneBoundEach(r, u, penalty, least, most);
      var k := Measure(AttemptsOn(u), r);
      TotalPush(init, r, AttemptsOn(u));
      TotalPush(init, r, Costs(u, penalty));
      AddUnit(Total(init, AttemptsOn(u)), k, least);
      AddUnit(Total(init, AttemptsOn(u)), k, most);
    }
  }

  lemma DivBounds(a: nat, n: nat)
    requires n > 0
    ensures (a / n) * n <= a < (a / n + 1) * n
  {
  }

  lemma MeanBetween(total: nat, n: nat, least: nat, most: nat)
    requires n > 0 && n * least <= total <= n * most
    ensures least <= total / n <= most
  {
    var q := total / n;
    DivBounds(total, n);
    if q < least { Scale(q + 1, least, n); }
    if q > most { Scale(most + 1, q, n); AddUnit(most, 1, n); }
  }

  lemma DivMonotone(a: nat, b: nat, n: nat)
    requires n > 0 && a <= b
    ensures a / n <= b / n
  {
    DivBounds(a, n);
    DivBounds(b, n);
    if a / n > b / n { Scale(b / n + 1, a / n, n); }
  }

  /** The score lies between the least and the greatest cost charged. */
  lemma ScoreIsBetween(base: seq<Record>, window: seq<Record>, u: UpstreamId, penalty: nat, least: nat, most: nat)
    requires forall r :: r in window && r.Attempt? && r.upstream == u ==> least <= r.sample.Cost(penalty) <= most
    ensures Score(base, window, u, penalty).Some? ==> least <= Score(base, window, u, penalty).value <= most
  {
    hide Total;
    ScoreIsTheMeanCost(base, window, u, penalty);
    CostsAreBounded(window, u, penalty, least, most);
    if Total(window, AttemptsOn(u)) > 0 {
      MeanBetween(Total(window, Costs(u, penalty)), Total(window, AttemptsOn(u)), least, most);
    }
  }

  lemma TotalReplace(log: seq<Record>, i: nat, r: Record, m: Metric)
    requires i < |log|
    ensures Total(log[i := r], m) == Total(log, m) - Measure(m, log[i]) + Measure(m, r)
  {
    hide Total;
    assert log == log[..i] + [log[i]] + log[i + 1..];
    assert log[i := r] == log[..i] + [r] + log[i + 1..];
    TotalConcat(log[..i] + [log[i]], log[i + 1..], m);
    TotalConcat(log[..i] + [r], log[i + 1..], m);
    TotalPush(log[..i], log[i], m);
    TotalPush(log[..i], r, m);
  }

  lemma SomeAttempt(log: seq<Record>, u: UpstreamId, i: nat)
    requires i < |log| && log[i].Attempt? && log[i].upstream == u
    ensures Total(log, AttemptsOn(u)) > 0
  {
    hide Total;
    TotalReplace(log, i, Coalesced, AttemptsOn(u));
  }

  lemma FailingFastCosts(window: seq<Record>, u: UpstreamId, penalty: nat, i: nat, failed: Sample)
    requires i < |window| && window[i].Attempt? && window[i].upstream == u
    requires window[i].sample.micros <= penalty && failed.Retryable()
    ensures var after := window[i := Attempt(u, failed)];
            && Total(after, AttemptsOn(u)) == Total(window, AttemptsOn(u)) > 0
            && Total(window, Costs(u, penalty)) <= Total(after, Costs(u, penalty))
  {
    hide Total;
    TotalReplace(window, i, Attempt(u, failed), Costs(u, penalty));
    TotalReplace(window, i, Attempt(u, failed), AttemptsOn(u));
    SomeAttempt(window, u, i);
  }

  /** Failing fast never pays: turning an attempt cheaper than the penalty into a
      retryable failure, however quick, never lowers the score. */
  lemma FailingFastNeverPays(base: seq<Record>, window: seq<Record>, u: UpstreamId, penalty: nat, i: nat,
      failed: Sample)
    requires i < |window| && window[i].Attempt? && window[i].upstream == u
    requires window[i].sample.micros <= penalty && failed.Retryable()
    ensures var was, now := Score(base, window, u, penalty), Score(base, window[i := Attempt(u, failed)], u, penalty);
            was.Some? && now.Some? && was.value <= now.value
  {
    hide Total;
    var after := window[i := Attempt(u, failed)];
    FailingFastCosts(window, u, penalty, i, failed);
    ScoreIsTheMeanCost(base, window, u, penalty);
    ScoreIsTheMeanCost(base, after, u, penalty);
    DivMonotone(Total(window, Costs(u, penalty)), Total(after, Costs(u, penalty)), Total(window, AttemptsOn(u)));
  }

  // Histograms

  function SumTo(buckets: seq<nat>, n: nat): nat
    requires n <= |buckets|
  {
    if n == 0 then 0 else SumTo(buckets, n - 1) + buckets[n - 1]
  }

  method Cumulative(buckets: seq<nat>) returns (r: seq<nat>)
    ensures |r| == |buckets|
    ensures forall i :: 0 <= i < |r| ==> r[i] == SumTo(buckets, i + 1)
  {
    r := [];
    var running := 0;
    for i := 0 to |buckets|
      invariant |r| == i
      invariant running == SumTo(buckets, i)
      invariant forall j :: 0 <= j < i ==> r[j] == SumTo(buckets, j + 1)
    {
      running := running + buckets[i];
      r := r + [running];
    }
  }

  /** The count of the attempt histogram: the sum of the seven outcomes. */
  function AttemptCount(s: Snapshot): nat {
    s.success + s.unreachable + s.readFailed + s.errorStatus + s.rpcError + s.rpcCallerFault + s.abandoned
  }

  lemma ValueSplits(bounds: seq<nat>, i: nat, x: nat)
    requires Increasing(bounds) && i < |bounds|
    ensures OfValue(AtMost(bounds[i]), bounds, x) ==
            OfValue(InBucket(i), bounds, x) + (if i == 0 then 0 else OfValue(AtMost(bounds[i - 1]), bounds, x))
  {
  }

  lemma InBucketSplits(axis: Axis, i: nat)
    requires i < |axis.Bounds()|
    ensures forall r :: Measure(Statistic(axis, AtMost(axis.Bounds()[i])), r) ==
              Measure(Statistic(axis, InBucket(i)), r)
              + (if i == 0 then 0 else Measure(Statistic(axis, AtMost(axis.Bounds()[i - 1])), r))
  {
    hide Measure, OfValue, Bucket;
    var bounds := axis.Bounds();
    forall r
      ensures Measure(Statistic(axis, AtMost(bounds[i])), r) ==
              Measure(Statistic(axis, InBucket(i)), r)
              + (if i == 0 then 0 else Measure(Statistic(axis, AtMost(bounds[i - 1])), r))
    {
      StatisticOf(axis, AtMost(bounds[i]), r);
      StatisticOf(axis, InBucket(i), r);
      if i > 0 { StatisticOf(axis, AtMost(bounds[i - 1]), r); }
      if axis.Observed(r).Some? { ValueSplits(bounds, i, axis.Observed(r).value); }
    }
  }

  /** The rendered bucket i counts the observations of at most bound i. */
  lemma {:induction false} BucketsAreCumulative(log: seq<Record>, axis: Axis, i: nat)
    requires i < |axis.Bounds()|
    ensures SumTo(Buckets(log, axis), i + 1) == Total(log, Statistic(axis, AtMost(axis.Bounds()[i])))
  {
    InBucketSplits(axis, i);
    if i == 0 {
      TotalEquals(log, Statistic(axis, AtMost(axis.Bounds()[0])), Statistic(axis, InBucket(0)));
    } else {
      BucketsAreCumulative(log, axis, i - 1);
      var bounds := axis.Bounds();
      TotalSplits(log, Statistic(axis, AtMost(bounds[i])), Statistic(axis, InBucket(i)),
                  Statistic(axis, AtMost(bounds[i - 1])));
    }
  }

  /** The rendered histogram of any log: bucket i counts the observations of at most
      bound i, so the buckets never decrease, and the total exceeds the last by exactly
      the observations past every bound. */
  lemma HistogramIsExact(log: seq<Record>, axis: Axis, i: nat, j: nat)
    requires i <= j < |axis.Bounds()|
    ensures var bounds, buckets := axis.Bounds(), Buckets(log, axis);
            && SumTo(buckets, i + 1) == Total(log, Statistic(axis, AtMost(bounds[i])))
            && SumTo(buckets, i + 1) <= SumTo(buckets, j + 1)
            && Total(log, Statistic(axis, Count)) ==
                 SumTo(buckets, |bounds|) + Total(log, Statistic(axis, Above(bounds[|bounds| - 1])))
  {
    hide Total, SumTo, Buckets;
    BucketsAreCumulative(log, axis, i);
    SumGrows(Buckets(log, axis), i + 1, j + 1);
    var last := |axis.Bounds()| - 1;
    BucketsAreCumulative(log, axis, last);
    TotalSplits(log, Statistic(axis, Count), Statistic(axis, AtMost(axis.Bounds()[last])),
                Statistic(axis, Above(axis.Bounds()[last])));
  }

  lemma SumGrows(buckets: seq<nat>, m: nat, n: nat)
    requires m <= n <= |buckets|
    ensures SumTo(buckets, m) <= SumTo(buckets, n)
  {
  }

  /** The total the attempt histogram shows is the number of attempts recorded. */
  lemma AttemptCountIsExact(log: seq<Record>, u: UpstreamId)
    ensures AttemptCount(SnapshotOf(log, u)) == Total(log, AttemptsOn(u))
  {
    OutcomesPartition(log, u);
  }

  /** Likewise for requests: answered plus failed. */
  lemma {:induction false} RequestCountIsExact(log: seq<Record>, name: string)
    ensures RequestsOf(log, name).answered + RequestsOf(log, name).failed
            == Total(log, Statistic(RequestAttempts(name), Count))
    ensures Total(log, Statistic(RequestDuration(name), Count)) == Total(log, Statistic(RequestAttempts(name), Count))
  {
    TotalSplits(log, Statistic(RequestAttempts(name), Count), Requests(name, true), Requests(name, false));
    TotalEquals(log, Statistic(RequestDuration(name), Count), Statistic(RequestAttempts(name), Count));
  }
}
