/**
 * The books of `Dispatch` as the observer's counters show them (src/observer/mod.rs).
 *
 * A counter is kept per label, so the law needs every label a request can report to be
 * one the observer keeps, and no upstream to be hedged to from itself: the chains hold
 * distinct upstreams of the fleet, which is what validation of the settings is for.
 */
module Ledger {
  import opened Upstreams
  import opened Hedge
  import opened Metrics
  import opened Dispatch
  import opened Observer
  import Scores
  import Config

  // Totals over a family of metrics, one for each label

  function SumOf(xs: seq<nat>): nat {
    if xs == [] then 0 else SumOf(xs[..|xs| - 1]) + xs[|xs| - 1]
  }

  function Totals(log: seq<Record>, family: seq<Metric>): seq<nat> {
    seq(|family|, i requires 0 <= i < |family| => Total(log, family[i]))
  }

  function Measures(r: Record, family: seq<Metric>): seq<nat> {
    seq(|family|, i requires 0 <= i < |family| => Measure(family[i], r))
  }

  lemma {:induction false} TotalsPush(log: seq<Record>, r: Record, family: seq<Metric>)
    ensures SumOf(Totals(log + [r], family)) == SumOf(Totals(log, family)) + SumOf(Measures(r, family))
  {
    hide Total, Measure;
    var n := |family|;
    if n > 0 {
      var init := family[..n - 1];
      TotalsPush(log, r, init);
      TotalPush(log, r, family[n - 1]);
      assert Totals(log + [r], family)[..n - 1] == Totals(log + [r], init);
      assert Totals(log, family)[..n - 1] == Totals(log, init);
      assert Measures(r, family)[..n - 1] == Measures(r, init);
    }
  }

  lemma {:induction false} NothingYetTotals(family: seq<Metric>)
    ensures SumOf(Totals([], family)) == 0
  {
    var n := |family|;
    if n > 0 {
      NothingYetTotals(family[..n - 1]);
      assert Totals([], family)[..n - 1] == Totals([], family[..n - 1]);
    }
  }

  /** A metric that each record splits over a family, the whole log splits over it. */
  lemma {:induction false} FamilyTotals(log: seq<Record>, whole: Metric, family: seq<Metric>)
    requires forall r :: r in log ==> Measure(whole, r) == SumOf(Measures(r, family))
    ensures Total(log, whole) == SumOf(Totals(log, family))
  {
    hide Measure, Totals, Measures;
    if log == [] {
      NothingYetTotals(family);
    } else {
      var init, r := log[..|log| - 1], log[|log| - 1];
      assert log == init + [r];
      FamilyTotals(init, whole, family);
      TotalPush(init, r, whole);
      TotalsPush(init, r, family);
    }
  }

  /** At most one of the family measures the record. */
  lemma {:induction false} OneOfThem(r: Record, family: seq<Metric>, k: nat)
    requires forall i :: 0 <= i < |family| && i != k ==> Measure(family[i], r) == 0
    ensures SumOf(Measures(r, family)) == if k < |family| then Measure(family[k], r) else 0
  {
    hide Measure;
    var n := |family|;
    if n > 0 {
      OneOfThem(r, family[..n - 1], k);
      assert Measures(r, family)[..n - 1] == Measures(r, family[..n - 1]);
    }
  }

  // The labels of a record

  ghost predicate Known(r: Record, fleet: set<UpstreamId>, names: set<string>) {
    match r
    case Failover(u) => u in fleet
    case Hedge(a, b) => a in fleet && b in fleet && a != b
    case Request(name, _, _, _) => name in names
    case _ => true
  }

  /** Each key once, as the observer lists its counters. */
  ghost predicate Lists<K(!new), V>(keys: seq<K>, counters: map<K, V>) {
    Distinct(keys) && forall k :: k in keys <==> k in counters
  }

  function FailoverFamily(us: seq<UpstreamId>): seq<Metric> {
    seq(|us|, i requires 0 <= i < |us| => Failovers(us[i]))
  }

  function HedgeFamily(pairs: seq<Pair>): seq<Metric> {
    seq(|pairs|, i requires 0 <= i < |pairs| => Hedges(pairs[i].0, pairs[i].1))
  }

  function RequestFamily(ms: seq<string>, stat: Stat): seq<Metric> {
    seq(|ms|, i requires 0 <= i < |ms| => Statistic(RequestAttempts(ms[i]), stat))
  }

  lemma FailoversSplit(r: Record, us: seq<UpstreamId>)
    requires Distinct(us) && (r.Failover? ==> r.from in us)
    ensures Measure(AllFailovers, r) == SumOf(Measures(r, FailoverFamily(us)))
  {
    var k := |us|;
    if r.Failover? { k :| 0 <= k < |us| && us[k] == r.from; }
    OneOfThem(r, FailoverFamily(us), k);
  }

  lemma HedgesSplit(r: Record, pairs: seq<Pair>)
    requires Distinct(pairs) && (r.Hedge? ==> (r.overtaken, r.to) in pairs)
    ensures Measure(AllHedges, r) == SumOf(Measures(r, HedgeFamily(pairs)))
  {
    var k := |pairs|;
    if r.Hedge? { k :| 0 <= k < |pairs| && pairs[k] == (r.overtaken, r.to); }
    OneOfThem(r, HedgeFamily(pairs), k);
  }

  lemma RequestsSplit(r: Record, ms: seq<string>, stat: Stat)
    requires Distinct(ms) && (r.Request? ==> r.name in ms)
    ensures SumOf(Measures(r, RequestFamily(ms, stat))) ==
            if r.Request? then OfValue(stat, ATTEMPT_BOUNDS, r.attempts) else 0
  {
    hide Measure, OfValue;
    var k := |ms|;
    if r.Request? { k :| 0 <= k < |ms| && ms[k] == r.name; }
    forall i | 0 <= i < |ms|
      ensures Measure(RequestFamily(ms, stat)[i], r) == if i == k then OfValue(stat, ATTEMPT_BOUNDS, r.attempts) else 0
    {
      StatisticOf(RequestAttempts(ms[i]), stat, r);
    }
    OneOfThem(r, RequestFamily(ms, stat), k);
  }

  lemma RequestsCounted(r: Record)
    ensures Measure(AllRequestAttempts, r) == if r.Request? then OfValue(Sum, ATTEMPT_BOUNDS, r.attempts) else 0
    ensures Measure(AllRequests, r) == if r.Request? then OfValue(Count, ATTEMPT_BOUNDS, r.attempts) else 0
  {
  }

  // The counters, listed

  function FailoverCounts(failovers: map<UpstreamId, nat>, us: seq<UpstreamId>): seq<nat>
    requires forall u :: u in us ==> u in failovers
  {
    seq(|us|, i requires 0 <= i < |us| => failovers[us[i]])
  }

  function HedgeStarts(hedges: map<Pair, HedgeStats>, pairs: seq<Pair>): seq<nat>
    requires forall p :: p in pairs ==> p in hedges
  {
    seq(|pairs|, i requires 0 <= i < |pairs| => hedges[pairs[i]].started)
  }

  function AttemptCounts(requests: map<string, RequestStats>, ms: seq<string>): seq<nat>
    requires forall m :: m in ms ==> m in requests
  {
    seq(|ms|, i requires 0 <= i < |ms| => requests[ms[i]].attempts)
  }

  function RequestCounts(requests: map<string, RequestStats>, ms: seq<string>): seq<nat>
    requires forall m :: m in ms ==> m in requests
  {
    seq(|ms|, i requires 0 <= i < |ms| => requests[ms[i]].answered + requests[ms[i]].failed)
  }

  lemma FailoversAdd(observer: MetricsObserver, us: seq<UpstreamId>)
    requires observer.Valid() && Lists(us, observer.failovers)
    requires forall r :: r in observer.log ==> Known(r, observer.fleet, observer.names)
    ensures SumOf(FailoverCounts(observer.failovers, us)) == Total(observer.log, AllFailovers)
  {
    hide Total, Measure, SumOf;
    forall u {
      FailoversAreTotals(observer.log, observer.fleet, observer.names, u);
    }
    assert FailoverCounts(observer.failovers, us) == Totals(observer.log, FailoverFamily(us));
    forall r | r in observer.log ensures Measure(AllFailovers, r) == SumOf(Measures(r, FailoverFamily(us))) {
      FailoversSplit(r, us);
    }
    FamilyTotals(observer.log, AllFailovers, FailoverFamily(us));
  }

  lemma HedgesAdd(observer: MetricsObserver, pairs: seq<Pair>)
    requires observer.Valid() && Lists(pairs, observer.hedges)
    requires forall r :: r in observer.log ==> Known(r, observer.fleet, observer.names)
    ensures SumOf(HedgeStarts(observer.hedges, pairs)) == Total(observer.log, AllHedges)
  {
    hide Total, Measure, SumOf;
    forall a, b {
      HedgesAreTotals(observer.log, observer.fleet, observer.names, a, b);
    }
    forall i | 0 <= i < |pairs|
      ensures HedgeStarts(observer.hedges, pairs)[i] == Totals(observer.log, HedgeFamily(pairs))[i]
    {
      assert pairs[i] in pairs && pairs[i] == (pairs[i].0, pairs[i].1);
    }
    assert HedgeStarts(observer.hedges, pairs) == Totals(observer.log, HedgeFamily(pairs));
    forall r | r in observer.log ensures Measure(AllHedges, r) == SumOf(Measures(r, HedgeFamily(pairs))) {
      HedgesSplit(r, pairs);
    }
    FamilyTotals(observer.log, AllHedges, HedgeFamily(pairs));
  }

  lemma RequestsAdd(observer: MetricsObserver, ms: seq<string>)
    requires observer.Valid() && Lists(ms, observer.requests)
    requires forall r :: r in observer.log ==> Known(r, observer.fleet, observer.names)
    ensures SumOf(AttemptCounts(observer.requests, ms)) == Total(observer.log, AllRequestAttempts)
    ensures SumOf(RequestCounts(observer.requests, ms)) == Total(observer.log, AllRequests)
  {
    hide Total, Measure, SumOf;
    forall m | m in ms
      ensures observer.requests[m].attempts == Total(observer.log, Statistic(RequestAttempts(m), Sum))
      ensures observer.requests[m].answered + observer.requests[m].failed ==
              Total(observer.log, Statistic(RequestAttempts(m), Count))
    {
      RequestsAreTotals(observer.log, observer.fleet, observer.names, m);
      Scores.RequestCountIsExact(observer.log, m);
    }
    assert AttemptCounts(observer.requests, ms) == Totals(observer.log, RequestFamily(ms, Sum));
    assert RequestCounts(observer.requests, ms) == Totals(observer.log, RequestFamily(ms, Count));
    forall r | r in observer.log
      ensures Measure(AllRequestAttempts, r) == SumOf(Measures(r, RequestFamily(ms, Sum)))
      ensures Measure(AllRequests, r) == SumOf(Measures(r, RequestFamily(ms, Count)))
    {
      RequestsSplit(r, ms, Sum);
      RequestsSplit(r, ms, Count);
      RequestsCounted(r);
    }
    FamilyTotals(observer.log, AllRequestAttempts, RequestFamily(ms, Sum));
    FamilyTotals(observer.log, AllRequests, RequestFamily(ms, Count));
  }

  // What requests report

  ghost predicate FromFleet(p: Plan, fleet: set<UpstreamId>) {
    Distinct(Ids(p.chain)) && forall u :: u in Ids(p.chain) ==> u in fleet
  }

  ghost predicate Expected(input: Input, fleet: set<UpstreamId>, names: set<string>) {
    input.Arrive? ==> FromFleet(input.plan, fleet) && input.name in names
  }

  ghost predicate AllKnown(log: seq<Record>, fleet: set<UpstreamId>, names: set<string>) {
    forall r :: r in log ==> Known(r, fleet, names)
  }

  ghost predicate Reports(j: Job, fleet: set<UpstreamId>, names: set<string>) {
    FromFleet(j.plan, fleet) && j.name in names && AllKnown(j.log, fleet, names)
  }

  lemma {:induction false} DropsKnown(p: Plan, armed: set<nat>, n: nat, took: nat -> nat, fleet: set<UpstreamId>,
      names: set<string>)
    ensures AllKnown(Drops(p, armed, n, took), fleet, names)
  {
    if n > 0 {
      DropsKnown(p, armed, n - 1, took, fleet, names);
    }
  }

  lemma IdKnown(p: Plan, i: nat, fleet: set<UpstreamId>)
    requires FromFleet(p, fleet) && i < |p.chain|
    ensures Id(p, i) in fleet && (i > 0 ==> Id(p, i - 1) in fleet && Id(p, i - 1) != Id(p, i))
  {
    assert Ids(p.chain)[i] == Id(p, i);
    if i > 0 { assert Ids(p.chain)[i - 1] == Id(p, i - 1); }
  }

  lemma RaceKnown(p: Plan, s: State, e: Event, took: nat -> nat, fleet: set<UpstreamId>, names: set<string>)
    requires FromFleet(p, fleet) && Inv(p, s) && Enabled(p, s, e)
    ensures AllKnown(RaceRecords(p, s, e, took), fleet, names)
  {
    if e.Timer? {
      IdKnown(p, s.next, fleet);
    } else if e.Complete? {
      assert Launches(p, s) && e.index in s.inflight.Keys;
      IdKnown(p, e.index, fleet);
    }
  }

  lemma GoReports(j: Job, m: Move, fleet: set<UpstreamId>, names: set<string>)
    requires Reports(j, fleet, names) && Shape(j) && MayMove(j, m)
    ensures Reports(Go(j, m), fleet, names)
  {
    hide Inv, Step;
    var p := j.plan;
    match m
    case Race(e, took, _) =>
      RaceKnown(p, j.phase.state, e, took, fleet, names);
      var t := Step(p, j.phase.state, e);
      DropsKnown(p, ArmedIn(t), t.next, took, fleet, names);
    case Land(_, _) => IdKnown(p, j.phase.tried - 1, fleet);
    case HangUp(took) => DropsKnown(p, j.Armed(), j.Launched(), took, fleet, names);
    case Wake =>
  }

  lemma OpenReports(input: Input, fleet: set<UpstreamId>, names: set<string>)
    requires input.Arrive? && Expected(input, fleet, names)
    ensures Reports(Open(input.plan, input.name, input.mode, input.elapsed), fleet, names)
  {
    OpenShape(input.plan, input.name, input.mode, input.elapsed);
    OpenKeeps(input.plan, input.name, input.mode, input.elapsed);
    hide Open, Shape;
  }

  lemma OpenKeeps(plan: Plan, name: string, mode: Mode, elapsed: nat)
    ensures var j := Open(plan, name, mode, elapsed); j.plan.chain == plan.chain && j.name == name
  {
    hide Start;
  }

  lemma {:induction false} WorldReports(inputs: seq<Input>, fleet: set<UpstreamId>, names: set<string>)
    requires Live(inputs).Some? && forall input :: input in inputs ==> Expected(input, fleet, names)
    ensures AllKnown(Live(inputs).value.log, fleet, names)
    ensures forall k :: 0 <= k < |Live(inputs).value.jobs| ==> Reports(Live(inputs).value.jobs[k], fleet, names)
  {
    hide Reports, Open, Go;
    if inputs != [] {
      var sofar, input := inputs[..|inputs| - 1], inputs[|inputs| - 1];
      WorldReports(sofar, fleet, names);
      var w := Live(sofar).value;
      if input.Arrive? {
        OpenReports(input, fleet, names);
        ReportsKnown(Open(input.plan, input.name, input.mode, input.elapsed), fleet, names);
      } else {
        WorldInOrder(sofar, AllRequests);
        assert InOrder(w.jobs[input.index]);
        GoReports(w.jobs[input.index], input.move, fleet, names);
        ReportsKnown(Go(w.jobs[input.index], input.move), fleet, names);
      }
    }
  }

  lemma ReportsKnown(j: Job, fleet: set<UpstreamId>, names: set<string>)
    requires Reports(j, fleet, names)
    ensures AllKnown(j.log, fleet, names)
  {
  }

  /** Over any number of concurrent requests, at any moment, whichever order the observer
      lists its counters in: attempts reported, plus the surplus of requests running or
      dropped, plus the requests with no one to try, are the requests reported, plus the
      failovers, plus the hedges. */
  lemma CountersAddUp(observer: MetricsObserver, inputs: seq<Input>, us: seq<UpstreamId>, pairs: seq<Pair>,
      ms: seq<string>)
    requires Live(inputs).Some? && observer.Valid() && observer.log == Live(inputs).value.log
    requires forall input :: input in inputs ==> Expected(input, observer.fleet, observer.names)
    requires Lists(us, observer.failovers) && Lists(pairs, observer.hedges) && Lists(ms, observer.requests)
    ensures var jobs := Live(inputs).value.jobs;
            SumOf(AttemptCounts(observer.requests, ms)) + Surplus(jobs) + Untried(jobs)
            == SumOf(RequestCounts(observer.requests, ms)) + SumOf(FailoverCounts(observer.failovers, us))
               + SumOf(HedgeStarts(observer.hedges, pairs))
  {
    hide Total, SumOf, Live, Surplus;
    WorldReports(inputs, observer.fleet, observer.names);
    AttemptsAreAccountedFor(inputs);
    FailoversAdd(observer, us);
    HedgesAdd(observer, pairs);
    RequestsAdd(observer, ms);
  }

  // Where the labels come from

  function Labels(upstreams: seq<Config.UpstreamSettings>): (labels: seq<UpstreamId>)
    ensures |labels| == |upstreams|
    ensures forall i :: 0 <= i < |upstreams| ==> labels[i] == upstreams[i].name
  {
    seq(|upstreams|, i requires 0 <= i < |upstreams| => upstreams[i].name)
  }

  lemma {:induction false} DistinctCounts<T>(s: seq<T>, x: T)
    requires Distinct(s)
    ensures multiset(s)[x] <= 1
  {
    if s != [] {
      var init, last := s[..|s| - 1], s[|s| - 1];
      assert s == init + [last];
      DistinctCounts(init, x);
      if x == last { assert x !in init; }
    }
  }

  lemma CountsDistinct<T(!new)>(s: seq<T>)
    requires forall x :: multiset(s)[x] <= 1
    ensures Distinct(s)
  {
    forall i, j | 0 <= i < j < |s| ensures s[i] != s[j] {
      assert s == s[..j] + [s[j]] + s[j + 1..];
      assert s[i] == s[..j][i];
      assert s[..j][i] in multiset(s[..j]);
      assert multiset(s)[s[j]] == multiset(s[..j])[s[j]] + 1 + multiset(s[j + 1..])[s[j]];
    }
  }

  /** With accepted settings, any chain cut from any rearrangement of the upstreams, which
      is what every decider hands out, is distinct upstreams of the fleet. */
  lemma AcceptedChainsAreKnown(upstreams: seq<Config.UpstreamSettings>, hedgeAfterMillis: nat, origins: seq<string>,
      check: Config.OriginCheck, whole: seq<UpstreamId>, p: Plan)
    requires Config.Verdict(upstreams, hedgeAfterMillis, origins, check).None?
    requires multiset(whole) == multiset(Labels(upstreams)) && Ids(p.chain) <= whole
    ensures FromFleet(p, set u | u in Labels(upstreams))
  {
    Config.AcceptedMeans(upstreams, hedgeAfterMillis, origins, check);
    var labels := Labels(upstreams);
    forall i, j | 0 <= i < j < |labels| ensures labels[i] != labels[j] {
      assert Config.Apart(upstreams[i], upstreams[j]);
    }
    forall x ensures multiset(whole)[x] <= 1 {
      DistinctCounts(labels, x);
    }
    CountsDistinct(whole);
    forall u | u in Ids(p.chain) ensures u in labels {
      assert u in whole;
      assert u in multiset(whole);
    }
  }
}
