/**
 * The counters, kept one record at a time (src/observer/mod.rs, src/observer/snapshot.rs).
 *
 * `Valid` says that every counter equals the total of its metric over the log of all
 * records so far; each recording method keeps it so.  The relaxed atomic increments of
 * the source are one step here, so cross-field statements are about quiescent moments.
 */
module Observer {
  import opened Upstreams
  import opened Metrics

  /** The counters of one upstream; a snapshot of them has the same fields. */
  datatype Snapshot = Snapshot(
    success: nat,
    unreachable: nat,
    readFailed: nat,
    errorStatus: nat,
    rpcError: nat,
    rpcCallerFault: nat,
    abandoned: nat,
    retryableFailures: nat,
    buckets: seq<nat>,
    micros: nat,
    retryableMicros: nat)

  datatype HedgeStats = HedgeStats(started: nat, won: nat)

  datatype RequestStats = RequestStats(
    answered: nat,
    failed: nat,
    attemptBuckets: seq<nat>,
    attempts: nat,
    durationBuckets: seq<nat>,
    micros: nat)

  // The counters as totals over the log

  function Buckets(log: seq<Record>, axis: Axis): (buckets: seq<nat>)
    ensures |buckets| == |axis.Bounds()|
  {
    seq(|axis.Bounds()|, (i: nat) => Total(log, Statistic(axis, InBucket(i))))
  }

  function SnapshotOf(log: seq<Record>, u: UpstreamId): Snapshot {
    Snapshot(
      Total(log, Outcomes(u, Kind.Success)),
      Total(log, Outcomes(u, Kind.Unreachable)),
      Total(log, Outcomes(u, Kind.ReadFailed)),
      Total(log, Outcomes(u, Kind.ErrorStatus)),
      Total(log, Outcomes(u, Kind.RpcError)),
      Total(log, Outcomes(u, Kind.RpcCallerFault)),
      Total(log, Outcomes(u, Kind.Abandoned)),
      Total(log, Retryables(u)),
      Buckets(log, AttemptDuration(u)),
      Total(log, Statistic(AttemptDuration(u), Sum)),
      Total(log, RetryableMicros(u)))
  }

  function HedgesOf(log: seq<Record>, pair: (UpstreamId, UpstreamId)): HedgeStats {
    HedgeStats(Total(log, Hedges(pair.0, pair.1)), Total(log, HedgeWins(pair.0, pair.1)))
  }

  function RequestsOf(log: seq<Record>, name: string): RequestStats {
    RequestStats(
      Total(log, Requests(name, true)),
      Total(log, Requests(name, false)),
      Buckets(log, RequestAttempts(name)),
      Total(log, Statistic(RequestAttempts(name), Sum)),
      Buckets(log, RequestDuration(name)),
      Total(log, Statistic(RequestDuration(name), Sum)))
  }

  const OTHER_METHOD := "other"

  // One increment

  /** `partition_point` finds the bucket; past the last bound no bucket is touched. */
  function Observe(buckets: seq<nat>, bounds: seq<nat>, x: nat): seq<nat> {
    var i := Bucket(bounds, x);
    if i < |buckets| then buckets[i := buckets[i] + 1] else buckets
  }

  lemma ObserveAt(buckets: seq<nat>, bounds: seq<nat>, x: nat, i: nat)
    requires i < |buckets|
    ensures |Observe(buckets, bounds, x)| == |buckets|
    ensures Observe(buckets, bounds, x)[i] == buckets[i] + One(Bucket(bounds, x) == i)
  {
  }

  lemma ObserveCounts(log: seq<Record>, r: Record, axis: Axis)
    ensures Buckets(log + [r], axis) ==
            if axis.Observed(r).Some? then Observe(Buckets(log, axis), axis.Bounds(), axis.Observed(r).value)
            else Buckets(log, axis)
  {
    var x := axis.Observed(r);
    var bounds := axis.Bounds();
    var was, now := Buckets(log, axis), Buckets(log + [r], axis);
    forall i: nat | i < |bounds|
      ensures now[i] == was[i] + (if x.Some? then One(Bucket(bounds, x.value) == i) else 0)
      ensures x.Some? ==> |Observe(was, bounds, x.value)| == |was| && now[i] == Observe(was, bounds, x.value)[i]
    {
      TotalPush(log, r, Statistic(axis, InBucket(i)));
      StatisticOf(axis, InBucket(i), r);
      if x.Some? { ObserveAt(was, bounds, x.value, i); }
    }
    if x.None? { assert now == was; }
  }

  function Counted(s: Snapshot, sample: Sample): Snapshot {
    match sample.Class()
    case Success => s.(success := s.success + 1)
    case Unreachable => s.(unreachable := s.unreachable + 1)
    case ReadFailed => s.(readFailed := s.readFailed + 1)
    case ErrorStatus => s.(errorStatus := s.errorStatus + 1)
    case RpcError => s.(rpcError := s.rpcError + 1)
    case RpcCallerFault => s.(rpcCallerFault := s.rpcCallerFault + 1)
    case Abandoned => s.(abandoned := s.abandoned + 1)
  }

  function Timed(s: Snapshot, micros: nat): Snapshot {
    s.(micros := s.micros + micros, buckets := Observe(s.buckets, BUCKET_BOUNDS_MICROS, micros))
  }

  lemma OutcomesCount(log: seq<Record>, r: Record, u: UpstreamId)
    requires r.Attempt? && r.upstream == u
    ensures forall kind ::
              Total(log + [r], Outcomes(u, kind)) == Total(log, Outcomes(u, kind)) + One(r.sample.Class() == kind)
  {
    hide Total;
    forall kind {
      TotalPush(log, r, Outcomes(u, kind));
    }
  }

  function Accounted(s: Snapshot, sample: Sample): Snapshot {
    var timed := Timed(Counted(s, sample), sample.micros);
    if sample.Retryable() then
      timed.(retryableFailures := timed.retryableFailures + 1, retryableMicros := timed.retryableMicros + sample.micros)
    else
      timed
  }

  lemma AttemptCounts(log: seq<Record>, r: Record, u: UpstreamId)
    requires r.Attempt? && r.upstream == u
    ensures SnapshotOf(log + [r], u) == Accounted(SnapshotOf(log, u), r.sample)
  {
    hide Total, Buckets, Observe;
    OutcomesCount(log, r, u);
    ObserveCounts(log, r, AttemptDuration(u));
    TotalPush(log, r, Retryables(u));
    TotalPush(log, r, RetryableMicros(u));
    TotalPush(log, r, Statistic(AttemptDuration(u), Sum));
  }

  lemma OtherSnapshotsUntouched(log: seq<Record>, r: Record, u: UpstreamId)
    requires !(r.Attempt? && r.upstream == u)
    ensures SnapshotOf(log + [r], u) == SnapshotOf(log, u)
  {
    hide Total, Buckets, Observe;
    forall kind {
      TotalPush(log, r, Outcomes(u, kind));
    }
    ObserveCounts(log, r, AttemptDuration(u));
    TotalPush(log, r, Retryables(u));
    TotalPush(log, r, RetryableMicros(u));
    TotalPush(log, r, Statistic(AttemptDuration(u), Sum));
  }

  lemma OtherRequestsUntouched(log: seq<Record>, r: Record, name: string)
    requires !(r.Request? && r.name == name)
    ensures RequestsOf(log + [r], name) == RequestsOf(log, name)
  {
    hide Total, Buckets, Observe;
    forall m {
      TotalPush(log, r, m);
    }
    ObserveCounts(log, r, RequestAttempts(name));
    ObserveCounts(log, r, RequestDuration(name));
  }

  function Requested(s: RequestStats, answered: bool, attempts: nat, micros: nat): RequestStats {
    RequestStats(
      s.answered + One(answered),
      s.failed + One(!answered),
      Observe(s.attemptBuckets, ATTEMPT_BOUNDS, attempts),
      s.attempts + attempts,
      Observe(s.durationBuckets, BUCKET_BOUNDS_MICROS, micros),
      s.micros + micros)
  }

  lemma RequestTotalsCount(log: seq<Record>, r: Record)
    requires r.Request?
    ensures Total(log + [r], Requests(r.name, true)) == Total(log, Requests(r.name, true)) + One(r.answered)
    ensures Total(log + [r], Requests(r.name, false)) == Total(log, Requests(r.name, false)) + One(!r.answered)
    ensures Total(log + [r], Statistic(RequestAttempts(r.name), Sum))
            == Total(log, Statistic(RequestAttempts(r.name), Sum)) + r.attempts
    ensures Total(log + [r], Statistic(RequestDuration(r.name), Sum))
            == Total(log, Statistic(RequestDuration(r.name), Sum)) + r.micros
  {
    hide Total;
    TotalPush(log, r, Requests(r.name, true));
    TotalPush(log, r, Requests(r.name, false));
    TotalPush(log, r, Statistic(RequestAttempts(r.name), Sum));
    TotalPush(log, r, Statistic(RequestDuration(r.name), Sum));
  }

  lemma RequestCounts(log: seq<Record>, r: Record)
    requires r.Request?
    ensures RequestsOf(log + [r], r.name) == Requested(RequestsOf(log, r.name), r.answered, r.attempts, r.micros)
  {
    hide Total, Buckets, Observe;
    RequestTotalsCount(log, r);
    ObserveCounts(log, r, RequestAttempts(r.name));
    ObserveCounts(log, r, RequestDuration(r.name));
  }

  // What a record does to the counters of its label, written out

  ghost predicate BucketedAt(was: seq<nat>, now: seq<nat>, bounds: seq<nat>, x: nat, i: int) {
    0 <= i < |was| && i < |now| && i < |bounds| ==>
      now[i] == was[i] + One(x <= bounds[i] && (i == 0 || x > bounds[i - 1]))
  }

  /** One more in the bucket whose bound is the first at or above `x`, none elsewhere. */
  ghost predicate Bucketed(was: seq<nat>, now: seq<nat>, bounds: seq<nat>, x: nat) {
    |now| == |was| && forall i :: BucketedAt(was, now, bounds, x, i)
  }

  ghost predicate AttemptTallied(was: Snapshot, now: Snapshot, outcome: CallResult, micros: nat) {
    && now.success == was.success + One(outcome.Answered?)
    && now.unreachable == was.unreachable + One(outcome.Failed? && outcome.error.Unreachable?)
    && now.readFailed == was.readFailed + One(outcome.Failed? && outcome.error.ReadFailed?)
    && now.errorStatus == was.errorStatus + One(outcome.Failed? && outcome.error.ErrorStatus?)
    && now.rpcError == was.rpcError + One(outcome.Failed? && outcome.error.RpcError? && outcome.error.retryable)
    && now.rpcCallerFault
       == was.rpcCallerFault + One(outcome.Failed? && outcome.error.RpcError? && !outcome.error.retryable)
    && now.abandoned == was.abandoned
    && now.retryableFailures == was.retryableFailures + One(PassedOn(outcome))
    && now.micros == was.micros + micros
    && now.retryableMicros == was.retryableMicros + (if PassedOn(outcome) then micros else 0)
    && Bucketed(was.buckets, now.buckets, BUCKET_BOUNDS_MICROS, micros)
  }

  ghost predicate AbandonTallied(was: Snapshot, now: Snapshot, micros: nat) {
    && now == was.(abandoned := was.abandoned + 1, micros := was.micros + micros, buckets := now.buckets)
    && Bucketed(was.buckets, now.buckets, BUCKET_BOUNDS_MICROS, micros)
  }

  ghost predicate RequestTallied(was: RequestStats, now: RequestStats, answered: bool, attempts: nat, micros: nat) {
    && now.answered == was.answered + One(answered)
    && now.failed == was.failed + One(!answered)
    && now.attempts == was.attempts + attempts
    && now.micros == was.micros + micros
    && Bucketed(was.attemptBuckets, now.attemptBuckets, ATTEMPT_BOUNDS, attempts)
    && Bucketed(was.durationBuckets, now.durationBuckets, BUCKET_BOUNDS_MICROS, micros)
  }

  lemma BucketIs(bounds: seq<nat>, x: nat, i: nat)
    requires Increasing(bounds) && i < |bounds|
    ensures Bucket(bounds, x) == i <==> x <= bounds[i] && (i == 0 || x > bounds[i - 1])
  {
  }

  lemma ObserveBuckets(buckets: seq<nat>, bounds: seq<nat>, x: nat)
    requires Increasing(bounds)
    ensures Bucketed(buckets, Observe(buckets, bounds, x), bounds, x)
  {
    var now := Observe(buckets, bounds, x);
    forall i ensures BucketedAt(buckets, now, bounds, x, i) {
      if 0 <= i < |buckets| && i < |bounds| {
        ObserveAt(buckets, bounds, x, i);
        BucketIs(bounds, x, i);
      }
    }
  }

  lemma AccountedTallies(was: Snapshot, outcome: CallResult, micros: nat)
    ensures AttemptTallied(was, Accounted(was, Measured(outcome, micros)), outcome, micros)
  {
    hide Observe, Bucketed;
    RetryableMeans(outcome);
    assert AttemptDuration("").Bounds() == BUCKET_BOUNDS_MICROS;
    ObserveBuckets(was.buckets, BUCKET_BOUNDS_MICROS, micros);
  }

  lemma AccountedDrops(was: Snapshot, micros: nat)
    ensures AbandonTallied(was, Accounted(was, Dropped(micros)), micros)
  {
    hide Observe, Bucketed;
    assert AttemptDuration("").Bounds() == BUCKET_BOUNDS_MICROS;
    ObserveBuckets(was.buckets, BUCKET_BOUNDS_MICROS, micros);
  }

  lemma RequestedTallies(was: RequestStats, answered: bool, attempts: nat, micros: nat)
    ensures RequestTallied(was, Requested(was, answered, attempts, micros), answered, attempts, micros)
  {
    hide Observe, Bucketed;
    assert RequestAttempts("").Bounds() == ATTEMPT_BOUNDS && RequestDuration("").Bounds() == BUCKET_BOUNDS_MICROS;
    ObserveBuckets(was.attemptBuckets, ATTEMPT_BOUNDS, attempts);
    ObserveBuckets(was.durationBuckets, BUCKET_BOUNDS_MICROS, micros);
  }

  // All counters

  type Pair = (UpstreamId, UpstreamId)

  datatype Counters = Counters(
    stats: map<UpstreamId, Snapshot>,
    hedges: map<Pair, HedgeStats>,
    coalesced: nat,
    failovers: map<UpstreamId, nat>,
    requests: map<string, RequestStats>)

  const NO_BUCKETS: seq<nat> := seq(|BUCKET_BOUNDS_MICROS|, _ => 0)

  function Zero(fleet: set<UpstreamId>, names: set<string>): Counters {
    Counters(
      map u | u in fleet :: Snapshot(0, 0, 0, 0, 0, 0, 0, 0, NO_BUCKETS, 0, 0),
      map a, b | a in fleet && b in fleet && a != b :: (a, b) := HedgeStats(0, 0),
      0,
      map u | u in fleet :: 0,
      map name | name in names :: RequestStats(0, 0, seq(|ATTEMPT_BOUNDS|, _ => 0), 0, NO_BUCKETS, 0))
  }

  /** One record: exactly one family moves, and nothing moves for an unknown label. */
  function Bump(c: Counters, r: Record): Counters {
    match r
    case Attempt(u, sample) =>
      if u in c.stats then c.(stats := c.stats[u := Accounted(c.stats[u], sample)]) else c
    case Hedge(a, b) =>
      if (a, b) in c.hedges then
        c.(hedges := c.hedges[(a, b) := c.hedges[(a, b)].(started := c.hedges[(a, b)].started + 1)])
      else c
    case HedgeWin(a, b) =>
      if (a, b) in c.hedges then
        c.(hedges := c.hedges[(a, b) := c.hedges[(a, b)].(won := c.hedges[(a, b)].won + 1)])
      else c
    case Failover(u) =>
      if u in c.failovers then c.(failovers := c.failovers[u := c.failovers[u] + 1]) else c
    case Request(name, answered, attempts, micros) =>
      if name in c.requests then
        c.(requests := c.requests[name := Requested(c.requests[name], answered, attempts, micros)])
      else c
    case Coalesced => c.(coalesced := c.coalesced + 1)
  }

  function Replay(log: seq<Record>, fleet: set<UpstreamId>, names: set<string>): Counters {
    if log == [] then Zero(fleet, names)
    else Bump(Replay(log[..|log| - 1], fleet, names), log[|log| - 1])
  }

  lemma ReplayPush(log: seq<Record>, r: Record, fleet: set<UpstreamId>, names: set<string>)
    ensures Replay(log + [r], fleet, names) == Bump(Replay(log, fleet, names), r)
  {
    assert (log + [r])[..|log|] == log;
  }

  class MetricsObserver {
    var stats: map<UpstreamId, Snapshot>
    var hedges: map<Pair, HedgeStats>
    var coalesced: nat
    var failovers: map<UpstreamId, nat>
    var requests: map<string, RequestStats>
    const fleet: set<UpstreamId>
    const names: set<string>
    /** Every record so far, oldest first. */
    ghost var log: seq<Record>

    function Shown(): Counters
      reads this
    {
      Counters(stats, hedges, coalesced, failovers, requests)
    }

    ghost predicate Valid()
      reads this
    {
      && OTHER_METHOD in names
      && requests.Keys == names
      && Shown() == Replay(log, fleet, names)
    }

    constructor (upstreams: set<UpstreamId>, methods: set<string>)
      ensures Valid() && log == [] && fleet == upstreams && names == methods + {OTHER_METHOD}
    {
      fleet := upstreams;
      names := methods + {OTHER_METHOD};
      var zero := Zero(upstreams, methods + {OTHER_METHOD});
      stats, hedges, failovers := zero.stats, zero.hedges, zero.failovers;
      coalesced, requests := 0, zero.requests;
      log := [];
    }

    /** A finished attempt.  An unknown upstream is dropped with a warning. */
    method RecordAttempt(upstream: UpstreamId, outcome: CallResult, micros: nat)
      requires Valid()
      modifies this
      ensures Valid() && log == old(log) + [Attempt(upstream, Measured(outcome, micros))]
      ensures unchanged(`hedges) && unchanged(`coalesced) && unchanged(`failovers) && unchanged(`requests)
      ensures stats.Keys == old(stats.Keys) && forall u :: u in stats && u != upstream ==> stats[u] == old(stats)[u]
      ensures upstream in stats ==> AttemptTallied(old(stats)[upstream], stats[upstream], outcome, micros)
    {
      hide Replay, Observe, Bucket, Requested, AttemptTallied;
      ReplayPush(log, Attempt(upstream, Measured(outcome, micros)), fleet, names);
      log := log + [Attempt(upstream, Measured(outcome, micros))];
      if upstream !in stats {
        return;
      }
      AccountedTallies(stats[upstream], outcome, micros);
      var stat := Timed(Counted(stats[upstream], Measured(outcome, micros)), micros);
      if outcome.Failed? && outcome.error.IsRetryable() {
        stat := stat.(retryableFailures := stat.retryableFailures + 1,
                      retryableMicros := stat.retryableMicros + micros);
      }
      stats := stats[upstream := stat];
    }

    /** An attempt whose future was dropped. */
    method RecordAbandoned(upstream: UpstreamId, elapsed: nat)
      requires Valid()
      modifies this
      ensures Valid() && log == old(log) + [Attempt(upstream, Dropped(elapsed))]
      ensures unchanged(`hedges) && unchanged(`coalesced) && unchanged(`failovers) && unchanged(`requests)
      ensures stats.Keys == old(stats.Keys) && forall u :: u in stats && u != upstream ==> stats[u] == old(stats)[u]
      ensures upstream in stats ==> AbandonTallied(old(stats)[upstream], stats[upstream], elapsed)
    {
      hide Replay, Observe, Bucket, Requested, AbandonTallied;
      ReplayPush(log, Attempt(upstream, Dropped(elapsed)), fleet, names);
      log := log + [Attempt(upstream, Dropped(elapsed))];
      if upstream in stats {
        AccountedDrops(stats[upstream], elapsed);
        var stat := stats[upstream];
        stats := stats[upstream := Timed(stat.(abandoned := stat.abandoned + 1), elapsed)];
      }
    }

    method RecordHedge(overtaken: UpstreamId, to: UpstreamId)
      requires Valid()
      modifies this
      ensures Valid() && log == old(log) + [Hedge(overtaken, to)]
      ensures unchanged(`stats) && unchanged(`coalesced) && unchanged(`failovers) && unchanged(`requests)
      ensures var pair, was := (overtaken, to), old(hedges);
              hedges == if pair in was then was[pair := HedgeStats(was[pair].started + 1, was[pair].won)] else was
    {
      hide Replay, Observe, Bucket, Requested, Accounted;
      ReplayPush(log, Hedge(overtaken, to), fleet, names);
      log := log + [Hedge(overtaken, to)];
      if (overtaken, to) in hedges {
        var stat := hedges[(overtaken, to)];
        hedges := hedges[(overtaken, to) := stat.(started := stat.started + 1)];
      }
    }

    method RecordHedgeWin(overtaken: UpstreamId, to: UpstreamId)
      requires Valid()
      modifies this
      ensures Valid() && log == old(log) + [HedgeWin(overtaken, to)]
      ensures unchanged(`stats) && unchanged(`coalesced) && unchanged(`failovers) && unchanged(`requests)
      ensures var pair, was := (overtaken, to), old(hedges);
              hedges == if pair in was then was[pair := HedgeStats(was[pair].started, was[pair].won + 1)] else was
    {
      hide Replay, Observe, Bucket, Requested, Accounted;
      ReplayPush(log, HedgeWin(overtaken, to), fleet, names);
      log := log + [HedgeWin(overtaken, to)];
      if (overtaken, to) in hedges {
        var stat := hedges[(overtaken, to)];
        hedges := hedges[(overtaken, to) := stat.(won := stat.won + 1)];
      }
    }

    method RecordFailover(from: UpstreamId)
      requires Valid()
      modifies this
      ensures Valid() && log == old(log) + [Failover(from)]
      ensures unchanged(`stats) && unchanged(`hedges) && unchanged(`coalesced) && unchanged(`requests)
      ensures var was := old(failovers); failovers == if from in was then was[from := was[from] + 1] else was
    {
      hide Replay, Observe, Bucket, Requested, Accounted;
      ReplayPush(log, Failover(from), fleet, names);
      log := log + [Failover(from)];
      if from in failovers {
        failovers := failovers[from := failovers[from] + 1];
      }
    }

    method RecordCoalesced()
      requires Valid()
      modifies this
      ensures Valid() && log == old(log) + [Coalesced]
      ensures unchanged(`stats) && unchanged(`hedges) && unchanged(`failovers) && unchanged(`requests)
      ensures coalesced == old(coalesced) + 1
    {
      hide Replay, Observe, Bucket, Requested, Accounted;
      ReplayPush(log, Coalesced, fleet, names);
      log := log + [Coalesced];
      coalesced := coalesced + 1;
    }

    /** A method outside the label set is filed under "other". */
    method RecordRequest(name: string, answered: bool, attempts: nat, elapsed: nat)
      requires Valid()
      modifies this
      ensures Valid()
      ensures log == old(log) + [Request(if name in names then name else "other", answered, attempts, elapsed)]
      ensures unchanged(`stats) && unchanged(`hedges) && unchanged(`coalesced) && unchanged(`failovers)
      ensures var filed := if name in names then name else "other";
              && filed in old(requests) && requests.Keys == old(requests.Keys)
              && (forall n :: n in requests && n != filed ==> requests[n] == old(requests)[n])
              && RequestTallied(old(requests)[filed], requests[filed], answered, attempts, elapsed)
    {
      hide Replay, Observe, Bucket, Accounted, RequestTallied;
      var filed := if name in requests then name else OTHER_METHOD;
      ReplayPush(log, Request(filed, answered, attempts, elapsed), fleet, names);
      log := log + [Request(filed, answered, attempts, elapsed)];
      RequestedTallies(requests[filed], answered, attempts, elapsed);
      var stat := requests[filed];
      if answered {
        stat := stat.(answered := stat.answered + 1);
      } else {
        stat := stat.(failed := stat.failed + 1);
      }
      stat := stat.(attempts := stat.attempts + attempts,
                    attemptBuckets := Observe(stat.attemptBuckets, ATTEMPT_BOUNDS, attempts));
      stat := stat.(micros := stat.micros + elapsed,
                    durationBuckets := Observe(stat.durationBuckets, BUCKET_BOUNDS_MICROS, elapsed));
      requests := requests[filed := stat];
    }
  }

  // The counters are totals

  lemma BumpKeepsStats(c: Counters, init: seq<Record>, r: Record, u: UpstreamId)
    ensures u in Bump(c, r).stats <==> u in c.stats
    ensures u in c.stats && c.stats[u] == SnapshotOf(init, u) ==> Bump(c, r).stats[u] == SnapshotOf(init + [r], u)
  {
    hide SnapshotOf, Accounted, Requested;
    if r.Attempt? && r.upstream == u { AttemptCounts(init, r, u); } else { OtherSnapshotsUntouched(init, r, u); }
  }

  lemma {:induction false} SnapshotsAreTotals(log: seq<Record>, fleet: set<UpstreamId>, names: set<string>,
      u: UpstreamId)
    ensures u in fleet <==> u in Replay(log, fleet, names).stats
    ensures u in fleet ==> Replay(log, fleet, names).stats[u] == SnapshotOf(log, u)
  {
    if log == [] {
      assert Buckets([], AttemptDuration(u)) == NO_BUCKETS;
    } else {
      hide SnapshotOf, Bump;
      var init, r := log[..|log| - 1], log[|log| - 1];
      assert init + [r] == log;
      SnapshotsAreTotals(init, fleet, names, u);
      BumpKeepsStats(Replay(init, fleet, names), init, r, u);
    }
  }

  lemma BumpKeepsRequests(c: Counters, init: seq<Record>, r: Record, name: string)
    requires name in c.requests && c.requests[name] == RequestsOf(init, name)
    ensures name in Bump(c, r).requests && Bump(c, r).requests[name] == RequestsOf(init + [r], name)
  {
    if r.Request? && r.name == name { RequestCounts(init, r); } else { OtherRequestsUntouched(init, r, name); }
  }

  lemma {:induction false} RequestsAreTotals(log: seq<Record>, fleet: set<UpstreamId>, names: set<string>, name: string)
    requires name in names
    ensures name in Replay(log, fleet, names).requests
    ensures Replay(log, fleet, names).requests[name] == RequestsOf(log, name)
  {
    if log == [] {
      assert Buckets([], RequestDuration(name)) == NO_BUCKETS;
      assert Buckets([], RequestAttempts(name)) == seq(|ATTEMPT_BOUNDS|, _ => 0);
    } else {
      var init, r := log[..|log| - 1], log[|log| - 1];
      assert init + [r] == log;
      RequestsAreTotals(init, fleet, names, name);
      BumpKeepsRequests(Replay(init, fleet, names), init, r, name);
    }
  }

  lemma BumpKeepsPairs(c: Counters, init: seq<Record>, r: Record, a: UpstreamId, b: UpstreamId)
    ensures (a, b) in Bump(c, r).hedges <==> (a, b) in c.hedges
    ensures (a, b) in c.hedges && c.hedges[(a, b)] == HedgesOf(init, (a, b)) ==>
              Bump(c, r).hedges[(a, b)] == HedgesOf(init + [r], (a, b))
  {
    hide Total;
    TotalPush(init, r, Hedges(a, b));
    TotalPush(init, r, HedgeWins(a, b));
  }

  lemma {:induction false} HedgesAreTotals(log: seq<Record>, fleet: set<UpstreamId>, names: set<string>,
      a: UpstreamId, b: UpstreamId)
    ensures a in fleet && b in fleet && a != b <==> (a, b) in Replay(log, fleet, names).hedges
    ensures a in fleet && b in fleet && a != b ==> Replay(log, fleet, names).hedges[(a, b)] == HedgesOf(log, (a, b))
  {
    if log != [] {
      var init := log[..|log| - 1];
      assert init + [log[|log| - 1]] == log;
      HedgesAreTotals(init, fleet, names, a, b);
      BumpKeepsPairs(Replay(init, fleet, names), init, log[|log| - 1], a, b);
    }
  }

  lemma BumpKeepsFailovers(c: Counters, init: seq<Record>, r: Record, u: UpstreamId)
    ensures u in Bump(c, r).failovers <==> u in c.failovers
    ensures u in c.failovers && c.failovers[u] == Total(init, Failovers(u)) ==>
              Bump(c, r).failovers[u] == Total(init + [r], Failovers(u))
    ensures c.coalesced == Total(init, CoalescedRequests) ==>
            Bump(c, r).coalesced == Total(init + [r], CoalescedRequests)
  {
    hide Total;
    TotalPush(init, r, Failovers(u));
    TotalPush(init, r, CoalescedRequests);
  }

  lemma {:induction false} FailoversAreTotals(log: seq<Record>, fleet: set<UpstreamId>, names: set<string>,
      u: UpstreamId)
    ensures u in fleet <==> u in Replay(log, fleet, names).failovers
    ensures u in fleet ==> Replay(log, fleet, names).failovers[u] == Total(log, Failovers(u))
    ensures Replay(log, fleet, names).coalesced == Total(log, CoalescedRequests)
  {
    hide Total, Bump;
    TotalNone(Failovers(u));
    TotalNone(CoalescedRequests);
    if log != [] {
      var init := log[..|log| - 1];
      assert init + [log[|log| - 1]] == log;
      FailoversAreTotals(init, fleet, names, u);
      BumpKeepsFailovers(Replay(init, fleet, names), init, log[|log| - 1], u);
    }
  }
}
