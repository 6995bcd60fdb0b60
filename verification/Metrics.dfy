/**
 * What the proxy reports to its observer, as a log, and what can be measured on a log.
 *
 * Every counter of the source is the `Total` of one `Metric` over the log; the counters
 * themselves, kept incrementally, are in `Observer`.
 */
module Metrics {
  import opened Upstreams

  datatype Kind = Success | Unreachable | ReadFailed | ErrorStatus | RpcError | RpcCallerFault | Abandoned

  /** One attempt that began: either it came back, or its future was dropped. */
  datatype Sample = Measured(outcome: CallResult, micros: nat) | Dropped(micros: nat)
  {
    function Class(): Kind {
      match this
      case Dropped(_) => Abandoned
      case Measured(Answered(_), _) => Success
      case Measured(Failed(error), _) =>
        match error
        case Unreachable => Kind.Unreachable
        case ReadFailed(_) => Kind.ReadFailed
        case ErrorStatus(_) => Kind.ErrorStatus
        case RpcError(_, _, retryable, _) => if retryable then Kind.RpcError else RpcCallerFault
    }

    predicate Retryable() {
      Measured? && outcome.FailsRetryably()
    }

    /** What the attempt cost: its own time, or the penalty if it must be retried. */
    function Cost(penalty: nat): nat {
      if Retryable() then penalty else micros
    }
  }

  datatype Record =
    | Attempt(upstream: UpstreamId, sample: Sample)
    | Hedge(overtaken: UpstreamId, to: UpstreamId)
    | HedgeWin(overtaken: UpstreamId, to: UpstreamId)
    | Failover(from: UpstreamId)
    | Request(name: string, answered: bool, attempts: nat, micros: nat)
    | Coalesced

  /** A quantity with a histogram. */
  datatype Axis =
    | AttemptDuration(upstream: UpstreamId)
    | RequestDuration(name: string)
    | RequestAttempts(name: string)
  {
    function Observed(r: Record): Option<nat> {
      match (this, r)
      case (AttemptDuration(u), Attempt(v, sample)) => if u == v then Some(sample.micros) else None
      case (RequestDuration(m), Request(l, _, _, micros)) => if m == l then Some(micros) else None
      case (RequestAttempts(m), Request(l, _, attempts, _)) => if m == l then Some(attempts) else None
      case _ => None
    }

    function Bounds(): (bounds: seq<nat>)
      ensures Increasing(bounds)
    {
      if RequestAttempts? then ATTEMPT_BOUNDS else BUCKET_BOUNDS_MICROS
    }
  }

  const BUCKET_BOUNDS_MICROS: seq<nat> :=
    [5_000, 10_000, 25_000, 50_000, 100_000, 250_000, 500_000, 1_000_000, 3_000_000, 5_000_000]

  const ATTEMPT_BOUNDS: seq<nat> := [1, 2, 3, 5, 10]

  /** From five milliseconds to five seconds, and from one attempt to ten. */
  lemma LaddersAre(u: UpstreamId, name: string)
    ensures AttemptDuration(u).Bounds() == RequestDuration(name).Bounds()
         == [5_000, 10_000, 25_000, 50_000, 100_000, 250_000, 500_000, 1_000_000, 3_000_000, 5_000_000]
    ensures RequestAttempts(name).Bounds() == [1, 2, 3, 5, 10]
  {
  }

  predicate Increasing(bounds: seq<nat>) {
    forall i, j :: 0 <= i < j < |bounds| ==> bounds[i] < bounds[j]
  }

  /** The first bound at or above `x`, or one past the last. */
  function Bucket(bounds: seq<nat>, x: nat): (i: nat)
    ensures i <= |bounds|
    ensures forall j :: 0 <= j < i ==> bounds[j] < x
    ensures i < |bounds| ==> x <= bounds[i]
  {
    if bounds == [] || x <= bounds[0] then 0 else 1 + Bucket(bounds[1..], x)
  }

  datatype Metric =
    | Outcomes(upstream: UpstreamId, kind: Kind)
    | Retryables(upstream: UpstreamId)
    | RetryableMicros(upstream: UpstreamId)
    | Costs(upstream: UpstreamId, penalty: nat)
    | Failovers(upstream: UpstreamId)
    | Hedges(overtaken: UpstreamId, to: UpstreamId)
    | HedgeWins(overtaken: UpstreamId, to: UpstreamId)
    | Requests(name: string, answered: bool)
    | CoalescedRequests
    | Statistic(axis: Axis, stat: Stat)
    // summed over every label
    | AllFailovers
    | AllHedges
    | AllRequestAttempts
    | RequestsThatTried
    | AllRequests

  /** What a histogram keeps of the values it observes. */
  datatype Stat = InBucket(index: nat) | AtMost(bound: nat) | Above(bound: nat) | Count | Sum

  function One(b: bool): nat {
    if b then 1 else 0
  }

  function Measure(m: Metric, r: Record): nat {
    match r
    case Attempt(u, sample) => OfAttempt(m, u, sample)
    case Hedge(a, b) => One(m == Hedges(a, b) || m == AllHedges)
    case HedgeWin(a, b) => One(m == HedgeWins(a, b))
    case Failover(u) => One(m == Failovers(u) || m == AllFailovers)
    case Request(name, answered, attempts, micros) => OfRequest(m, name, answered, attempts, micros)
    case Coalesced => One(m == CoalescedRequests)
  }

  function OfAttempt(m: Metric, u: UpstreamId, sample: Sample): nat {
    match m
    case Outcomes(v, kind) => One(u == v && sample.Class() == kind)
    case Retryables(v) => One(u == v && sample.Retryable())
    case RetryableMicros(v) => if u == v && sample.Retryable() then sample.micros else 0
    case Costs(v, penalty) => if u == v then sample.Cost(penalty) else 0
    case Statistic(axis, stat) => if axis == AttemptDuration(u) then OfValue(stat, axis.Bounds(), sample.micros) else 0
    case _ => 0
  }

  function OfRequest(m: Metric, name: string, answered: bool, attempts: nat, micros: nat): nat {
    match m
    case Requests(n, a) => One(n == name && a == answered)
    case Statistic(axis, stat) =>
      if axis == RequestDuration(name) then OfValue(stat, axis.Bounds(), micros)
      else if axis == RequestAttempts(name) then OfValue(stat, axis.Bounds(), attempts)
      else 0
    case AllRequestAttempts => attempts
    case RequestsThatTried => One(attempts > 0)
    case AllRequests => 1
    case _ => 0
  }

  function OfValue(stat: Stat, bounds: seq<nat>, x: nat): nat {
    match stat
    case InBucket(i) => One(Bucket(bounds, x) == i)
    case AtMost(bound) => One(x <= bound)
    case Above(bound) => One(x > bound)
    case Count => 1
    case Sum => x
  }

  /** What a histogram makes of any record. */
  lemma StatisticOf(axis: Axis, stat: Stat, r: Record)
    ensures Measure(Statistic(axis, stat), r) ==
            if axis.Observed(r).Some? then OfValue(stat, axis.Bounds(), axis.Observed(r).value) else 0
  {
  }

  function Total(log: seq<Record>, m: Metric): nat {
    if log == [] then 0 else Total(log[..|log| - 1], m) + Measure(m, log[|log| - 1])
  }

  lemma TotalNone(m: Metric)
    ensures Total([], m) == 0
  {
  }

  lemma TotalPush(log: seq<Record>, r: Record, m: Metric)
    ensures Total(log + [r], m) == Total(log, m) + Measure(m, r)
  {
    assert (log + [r])[..|log|] == log;
  }

  lemma {:induction false} TotalConcat(a: seq<Record>, b: seq<Record>, m: Metric)
    ensures Total(a + b, m) == Total(a, m) + Total(b, m)
  {
    if b == [] {
      assert a + b == a;
    } else {
      var init := b[..|b| - 1];
      assert a + b == (a + init) + [b[|b| - 1]];
      TotalPush(a + init, b[|b| - 1], m);
      TotalConcat(a, init, m);
    }
  }

  /** A metric that splits on every record splits on every log. */
  lemma {:induction false} TotalSplits(log: seq<Record>, whole: Metric, left: Metric, right: Metric)
    requires forall r :: Measure(whole, r) == Measure(left, r) + Measure(right, r)
    ensures Total(log, whole) == Total(log, left) + Total(log, right)
  {
    if log != [] {
      TotalSplits(log[..|log| - 1], whole, left, right);
    }
  }

  lemma {:induction false} TotalEquals(log: seq<Record>, a: Metric, b: Metric)
    requires forall r :: Measure(a, r) == Measure(b, r)
    ensures Total(log, a) == Total(log, b)
  {
    if log != [] {
      TotalEquals(log[..|log| - 1], a, b);
    }
  }
}
