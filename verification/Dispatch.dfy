/**
 * Requests in flight together, and the books they keep (src/proxy/mod.rs,
 * src/proxy/attempt.rs).
 *
 * A job is one request running its own chain; a world is any number of them, moved in
 * any order, all reporting to one log.  A job can be dropped at any await: the caller
 * hung up, or the last one sharing its flight did.
 */
module Dispatch {
  import opened Upstreams
  import opened Hedge
  import opened Metrics
  import Observer
  import Scores

  /** A write under hedging is sent once: a walk capped at one call. */
  datatype Mode = Sequential | Hedging | SendOnce

  datatype Phase =
    | InRace(state: State)
    | InWalk(tried: nat, sleeping: bool)
    | Ended(launched: nat, polled: set<nat>)
    | HungUp(launched: nat, polled: set<nat>, asleep: bool)

  datatype Job = Job(plan: Plan, name: string, phase: Phase, log: seq<Record>)
  {
    function Launched(): nat {
      match phase
      case InRace(s) => s.next
      case InWalk(tried, _) => tried
      case Ended(launched, _) => launched
      case HungUp(launched, _, _) => launched
    }

    /** The calls whose future was polled: an attempt begins at the first poll. */
    function Begun(): set<nat> {
      match phase
      case InRace(s) => s.begun
      case InWalk(tried, _) => Below(tried)
      case Ended(_, polled) => polled
      case HungUp(_, polled, _) => polled
    }

    /** The attempts begun and neither finished nor dropped: their guard is armed. */
    function Armed(): set<nat> {
      match phase
      case InRace(s) => ArmedIn(s)
      case InWalk(tried, sleeping) => if tried > 0 && !sleeping then {tried - 1} else {}
      case _ => {}
    }

    /** A walk between two calls, or one dropped there: the failover is announced, the
        call it announces is not made yet. */
    predicate Asleep() {
      match phase
      case InWalk(_, sleeping) => sleeping
      case HungUp(_, _, asleep) => asleep
      case _ => false
    }

    predicate Over() {
      phase.Ended? || phase.HungUp?
    }
  }

  function ArmedIn(s: State): set<nat> {
    s.begun * s.inflight.Keys
  }

  function Below(n: nat): (s: set<nat>)
    ensures forall i: nat :: i in s <==> i < n
  {
    if n == 0 then {} else Below(n - 1) + {n - 1}
  }

  /** `took` reads the clock for each call and `elapsed` for the request. */
  datatype Move =
    | Race(event: Event, took: nat -> nat, elapsed: nat)
    | Land(micros: nat, elapsed: nat)
    | Wake
    | HangUp(took: nat -> nat)

  function Id(p: Plan, i: nat): UpstreamId {
    if i < |p.chain| then p.chain[i].id else ""
  }

  /** The guards dropped while armed, each recording an abandoned attempt. */
  function Drops(p: Plan, armed: set<nat>, n: nat, took: nat -> nat): seq<Record> {
    if n == 0 then []
    else Drops(p, armed, n - 1, took) + if n - 1 in armed then [Attempt(Id(p, n - 1), Dropped(took(n - 1)))] else []
  }

  function WinRecords(p: Plan, raced: Raced): seq<Record> {
    if raced.result.Won? && raced.result.cause.Hedged?
    then [HedgeWin(Id(p, raced.result.cause.overtaken), Id(p, raced.result.index))] else []
  }

  /** The records of a job's end: guards still armed are dropped with the race, then a
      winning hedge is recorded, then the request. */
  function Close(j: Job, raced: Raced, s: State, took: nat -> nat, elapsed: nat): Job {
    var p := j.plan;
    Job(p, j.name, Ended(raced.started, s.begun),
        j.log + Drops(p, ArmedIn(s), s.next, took)
        + WinRecords(p, raced) + [Request(j.name, raced.result.Won?, raced.started, elapsed)])
  }

  function EndWalk(j: Job, tried: nat, answered: bool, elapsed: nat): Job {
    Job(j.plan, j.name, Ended(tried, Below(tried)), j.log + [Request(j.name, answered, tried, elapsed)])
  }

  function Open(plan: Plan, name: string, mode: Mode, elapsed: nat): Job {
    match mode
    case Hedging =>
      var s := Start(plan);
      var j := Job(plan, name, InRace(s), []);
      if s.returned.Some? then Close(j, s.returned.value, s, _ => 0, elapsed) else j
    case _ =>
      var p := if mode.SendOnce? then plan.(maxAttempt := 1) else plan;
      var j := Job(p, name, InWalk(1, false), []);
      if p.Limit() == 0 then EndWalk(j, 0, false, elapsed) else j
  }

  predicate MayMove(j: Job, m: Move) {
    match m
    case Race(e, _, _) => j.phase.InRace? && Enabled(j.plan, j.phase.state, e)
    case Land(_, _) => j.phase.InWalk? && !j.phase.sleeping && j.phase.tried > 0
    case Wake => j.phase.InWalk? && j.phase.sleeping
    case HangUp(_) => !j.Over()
  }

  /** What an event of the race reports as it happens. */
  function RaceRecords(p: Plan, s: State, e: Event, took: nat -> nat): seq<Record>
    requires Enabled(p, s, e)
  {
    match e
    case Begin(_) => []
    case Timer => [Hedge(Id(p, s.next - 1), Id(p, s.next))]
    case Complete(i) =>
      [Attempt(Id(p, i), Measured(p.outcome(i), took(i)))]
      + if p.outcome(i).FailsRetryably() && s.next < p.Limit() then [Failover(Id(p, i))] else []
  }

  function Go(j: Job, m: Move): Job
    requires MayMove(j, m)
  {
    var p := j.plan;
    match m
    case Race(e, took, elapsed) =>
      var s := j.phase.state;
      var t := Step(p, s, e);
      var k := j.(phase := InRace(t), log := j.log + RaceRecords(p, s, e, took));
      if t.returned.Some? then Close(k, t.returned.value, t, took, elapsed) else k
    case Land(micros, elapsed) =>
      var tried := j.phase.tried;
      var outcome := p.outcome(tried - 1);
      var k := j.(log := j.log + [Attempt(Id(p, tried - 1), Measured(outcome, micros))]);
      if outcome.FailsRetryably() && tried < p.Limit() then
        k.(phase := InWalk(tried, true), log := k.log + [Failover(Id(p, tried - 1))])
      else
        EndWalk(k, tried, outcome.Answered?, elapsed)
    case Wake => j.(phase := InWalk(j.phase.tried + 1, false))
    case HangUp(took) =>
      j.(phase := HungUp(j.Launched(), j.Begun(), j.Asleep()), log := j.log + Drops(p, j.Armed(), j.Launched(), took))
  }

  /** A request that is not over may be dropped, and may go on by itself. */
  lemma RequestsGoOn(j: Job, took: nat -> nat, micros: nat, elapsed: nat)
    requires Shape(j) && !j.Over()
    ensures MayMove(j, HangUp(took))
    ensures match j.phase
            case InRace(s) =>
              && s.inflight != map[]
              && (forall i :: i in s.inflight ==>
                    MayMove(j, Race(if i in s.begun then Complete(i) else Begin(i), took, elapsed)))
              && (s.next < j.plan.Limit() ==> MayMove(j, Race(Timer, took, elapsed)))
            case InWalk(_, sleeping) => MayMove(j, if sleeping then Wake else Land(micros, elapsed))
            case _ => true
  {
  }

  // What one job's books say

  /** The calls among `s` that go to upstream `u`. */
  function Hits(p: Plan, u: UpstreamId, s: set<nat>, n: nat): nat {
    if n == 0 then 0 else Hits(p, u, s, n - 1) + One(n - 1 in s && Id(p, n - 1) == u)
  }

  lemma {:induction false} HitsDrops(p: Plan, u: UpstreamId, s: set<nat>, n: nat, took: nat -> nat)
    ensures Total(Drops(p, s, n, took), Scores.AttemptsOn(u)) == Hits(p, u, s, n)
  {
    if n > 0 {
      HitsDrops(p, u, s, n - 1, took);
      if n - 1 in s {
        TotalPush(Drops(p, s, n - 1, took), Attempt(Id(p, n - 1), Dropped(took(n - 1))), Scores.AttemptsOn(u));
      } else {
        assert Drops(p, s, n, took) == Drops(p, s, n - 1, took);
      }
    }
  }

  /** Exactly one abandonment for each armed guard, with the time of its own call. */
  lemma {:induction false} DropsAbandon(p: Plan, armed: set<nat>, n: nat, took: nat -> nat)
    ensures forall r :: r in Drops(p, armed, n, took) <==>
              exists i: nat :: i in armed && i < n && r == Attempt(Id(p, i), Dropped(took(i)))
  {
    if n > 0 {
      DropsAbandon(p, armed, n - 1, took);
    }
  }

  ghost predicate IgnoresAttempts(m: Metric) {
    forall u, sample :: Measure(m, Attempt(u, sample)) == 0
  }

  lemma {:induction false} DropsAreAttempts(p: Plan, s: set<nat>, n: nat, took: nat -> nat, m: Metric)
    requires IgnoresAttempts(m)
    ensures Total(Drops(p, s, n, took), m) == 0
  {
    if n > 0 {
      DropsAreAttempts(p, s, n - 1, took, m);
      if n - 1 in s {
        TotalPush(Drops(p, s, n - 1, took), Attempt(Id(p, n - 1), Dropped(took(n - 1))), m);
      } else {
        assert Drops(p, s, n, took) == Drops(p, s, n - 1, took);
      }
    }
  }

  lemma {:induction false} HitsAdd(p: Plan, u: UpstreamId, s: set<nat>, i: nat, n: nat)
    requires i !in s
    ensures Hits(p, u, s + {i}, n) == Hits(p, u, s, n) + One(i < n && Id(p, i) == u)
  {
    if n > 0 {
      HitsAdd(p, u, s, i, n - 1);
    }
  }

  lemma {:induction false} HitsGrow(p: Plan, u: UpstreamId, s: set<nat>, t: set<nat>, n: nat)
    requires s <= t
    ensures Hits(p, u, s, n) <= Hits(p, u, t, n)
  {
    if n > 0 {
      HitsGrow(p, u, s, t, n - 1);
    }
  }

  lemma {:induction false} HitsBeyond(p: Plan, u: UpstreamId, s: set<nat>, n: nat, k: nat)
    requires n <= k && forall i :: i in s ==> i < n
    ensures Hits(p, u, s, k) == Hits(p, u, s, n)
  {
    if n < k {
      HitsBeyond(p, u, s, n, k - 1);
    }
  }

  lemma SingleTotal(r: Record, m: Metric)
    ensures Total([r], m) == Measure(m, r)
  {
    TotalPush([], r, m);
    assert [] + [r] == [r];
  }

  lemma CloseTotals(j: Job, raced: Raced, s: State, took: nat -> nat, elapsed: nat, m: Metric)
    ensures Total(Close(j, raced, s, took, elapsed).log, m) ==
              Total(j.log, m) + Total(Drops(j.plan, ArmedIn(s), s.next, took), m)
              + Total(WinRecords(j.plan, raced), m)
              + Measure(m, Request(j.name, raced.result.Won?, raced.started, elapsed))
  {
    hide Total;
    var drops := Drops(j.plan, ArmedIn(s), s.next, took);
    var win := WinRecords(j.plan, raced);
    TotalPush(j.log + drops + win, Request(j.name, raced.result.Won?, raced.started, elapsed), m);
    TotalConcat(j.log + drops, win, m);
    TotalConcat(j.log, drops, m);
  }

  lemma WinTotals(p: Plan, raced: Raced, m: Metric)
    ensures Total(WinRecords(p, raced), m) ==
              if raced.result.Won? && raced.result.cause.Hedged?
              then Measure(m, HedgeWin(Id(p, raced.result.cause.overtaken), Id(p, raced.result.index))) else 0
  {
    hide Total;
    TotalNone(m);
    if raced.result.Won? && raced.result.cause.Hedged? {
      SingleTotal(HedgeWin(Id(p, raced.result.cause.overtaken), Id(p, raced.result.index)), m);
    }
  }

  lemma RaceTotals(p: Plan, s: State, e: Event, took: nat -> nat, m: Metric)
    requires Enabled(p, s, e)
    ensures Total(RaceRecords(p, s, e, took), m) ==
              if e.Begin? then 0
              else if e.Timer? then Measure(m, Hedge(Id(p, s.next - 1), Id(p, s.next)))
              else
                Measure(m, Attempt(Id(p, e.index), Measured(p.outcome(e.index), took(e.index))))
                + if p.outcome(e.index).FailsRetryably() && s.next < p.Limit() then Measure(m, Failover(Id(p, e.index)))
                  else 0
  {
    hide Total;
    TotalNone(m);
    if e.Timer? {
      SingleTotal(Hedge(Id(p, s.next - 1), Id(p, s.next)), m);
    } else if e.Complete? {
      var a := Attempt(Id(p, e.index), Measured(p.outcome(e.index), took(e.index)));
      SingleTotal(a, m);
      if p.outcome(e.index).FailsRetryably() && s.next < p.Limit() {
        TotalPush([a], Failover(Id(p, e.index)), m);
      } else {
        assert [a] + [] == [a];
      }
    }
  }

  /** The totals after any move, per metric. */
  function Gain(j: Job, m: Move, metric: Metric): nat
    requires MayMove(j, m)
  {
    var p := j.plan;
    match m
    case Race(e, took, elapsed) =>
      var t := Step(p, j.phase.state, e);
      Total(RaceRecords(p, j.phase.state, e, took), metric)
      + if t.returned.Some? then
          Total(Drops(p, ArmedIn(t), t.next, took), metric)
          + Total(WinRecords(p, t.returned.value), metric)
          + Measure(metric, Request(j.name, t.returned.value.result.Won?, t.returned.value.started, elapsed))
        else 0
    case Land(micros, elapsed) =>
      var tried := j.phase.tried;
      var outcome := p.outcome(tried - 1);
      Measure(metric, Attempt(Id(p, tried - 1), Measured(outcome, micros)))
      + if outcome.FailsRetryably() && tried < p.Limit() then Measure(metric, Failover(Id(p, tried - 1)))
        else Measure(metric, Request(j.name, outcome.Answered?, tried, elapsed))
    case Wake => 0
    case HangUp(took) => Total(Drops(p, j.Armed(), j.Launched(), took), metric)
  }

  lemma GoTotals(j: Job, m: Move, metric: Metric)
    requires MayMove(j, m)
    ensures Total(Go(j, m).log, metric) == Total(j.log, metric) + Gain(j, m, metric)
  {
    hide Total, Measure;
    var p := j.plan;
    match m
    case Race(e, took, elapsed) =>
      var s := j.phase.state;
      var t := Step(p, s, e);
      var k := j.(phase := InRace(t), log := j.log + RaceRecords(p, s, e, took));
      TotalConcat(j.log, RaceRecords(p, s, e, took), metric);
      if t.returned.Some? { CloseTotals(k, t.returned.value, t, took, elapsed, metric); }
    case Land(micros, elapsed) =>
      var tried := j.phase.tried;
      var a := Attempt(Id(p, tried - 1), Measured(p.outcome(tried - 1), micros));
      TotalPush(j.log, a, metric);
      TotalPush(j.log + [a], Failover(Id(p, tried - 1)), metric);
      TotalPush(j.log + [a], Request(j.name, p.outcome(tried - 1).Answered?, tried, elapsed), metric);
    case Wake =>
    case HangUp(took) => TotalConcat(j.log, Drops(p, j.Armed(), j.Launched(), took), metric);
  }

  ghost predicate Shape(j: Job) {
    match j.phase
    case InRace(s) => Inv(j.plan, s) && s.returned.None?
    case InWalk(tried, sleeping) => 0 < tried <= j.plan.Limit() && (sleeping ==> tried < j.plan.Limit())
    case Ended(n, polled) => n <= |j.plan.chain| && forall i :: i in polled ==> i < n
    case HungUp(n, polled, _) => 0 < n <= |j.plan.chain| && forall i :: i in polled ==> i < n
  }

  /** The extra calls a job has announced: failovers and hedges. */
  function Extra(j: Job): nat {
    Total(j.log, AllFailovers) + Total(j.log, AllHedges)
  }

  /** A failover or a hedge is on the books for every call but the first, made or dropped;
      a walk asleep, or dropped asleep, has announced one it has not made. */
  ghost predicate Books(j: Job) {
    && Total(j.log, AllRequestAttempts) == (if j.phase.Ended? then j.Launched() else 0)
    && Total(j.log, RequestsThatTried) == One(j.phase.Ended? && j.Launched() > 0)
    && Total(j.log, AllRequests) == One(j.phase.Ended?)
    && Extra(j) == (if j.Launched() == 0 then 0 else j.Launched() - 1 + One(j.Asleep()))
    && (!j.phase.Ended? ==> j.Launched() > 0)
  }

  lemma ShapeHolds(j: Job, m: Move)
    requires Shape(j) && MayMove(j, m)
    ensures Shape(Go(j, m))
  {
    match m
    case Race(e, took, elapsed) => StepHolds(j.plan, j.phase.state, e);
    case _ =>
  }

  /** An event announces one extra call for each call it launches. */
  lemma RaceBooks(p: Plan, s: State, e: Event, took: nat -> nat)
    requires Enabled(p, s, e)
    ensures Total(RaceRecords(p, s, e, took), AllFailovers) + Total(RaceRecords(p, s, e, took), AllHedges)
            == Step(p, s, e).next - s.next
  {
    hide Total, RaceRecords;
    RaceTotals(p, s, e, took, AllFailovers);
    RaceTotals(p, s, e, took, AllHedges);
  }

  lemma RaceReportsNoRequest(p: Plan, s: State, e: Event, took: nat -> nat)
    requires Enabled(p, s, e)
    ensures Total(RaceRecords(p, s, e, took), AllRequestAttempts) == 0
    ensures Total(RaceRecords(p, s, e, took), RequestsThatTried) == 0
    ensures Total(RaceRecords(p, s, e, took), AllRequests) == 0
  {
    hide Total, RaceRecords;
    RaceTotals(p, s, e, took, AllRequestAttempts);
    RaceTotals(p, s, e, took, RequestsThatTried);
    RaceTotals(p, s, e, took, AllRequests);
  }

  lemma HangUpIsSilent(p: Plan, armed: set<nat>, n: nat, took: nat -> nat)
    ensures Total(Drops(p, armed, n, took), AllFailovers) == 0
    ensures Total(Drops(p, armed, n, took), AllHedges) == 0
    ensures Total(Drops(p, armed, n, took), AllRequestAttempts) == 0
    ensures Total(Drops(p, armed, n, took), RequestsThatTried) == 0
    ensures Total(Drops(p, armed, n, took), AllRequests) == 0
  {
    hide Total;
    DropsAreAttempts(p, armed, n, took, AllFailovers);
    DropsAreAttempts(p, armed, n, took, AllHedges);
    DropsAreAttempts(p, armed, n, took, AllRequestAttempts);
    DropsAreAttempts(p, armed, n, took, RequestsThatTried);
    DropsAreAttempts(p, armed, n, took, AllRequests);
  }

  lemma CloseIsSilent(p: Plan, t: State, took: nat -> nat)
    requires Inv(p, t) && t.returned.Some?
    ensures t.returned.value.started == t.next
    ensures forall m :: m in {AllFailovers, AllHedges, AllRequestAttempts, RequestsThatTried, AllRequests} ==>
              Total(Drops(p, ArmedIn(t), t.next, took), m) + Total(WinRecords(p, t.returned.value), m) == 0
  {
    hide Total;
    HangUpIsSilent(p, ArmedIn(t), t.next, took);
    WinTotals(p, t.returned.value, AllFailovers);
    WinTotals(p, t.returned.value, AllHedges);
    WinTotals(p, t.returned.value, AllRequestAttempts);
    WinTotals(p, t.returned.value, RequestsThatTried);
    WinTotals(p, t.returned.value, AllRequests);
  }

  lemma RaceGains(j: Job, m: Move)
    requires Shape(j) && MayMove(j, m) && m.Race?
    ensures var t := Step(j.plan, j.phase.state, m.event);
            && 0 < j.phase.state.next <= t.next
            && Gain(j, m, AllFailovers) + Gain(j, m, AllHedges) == t.next - j.phase.state.next
            && Gain(j, m, AllRequestAttempts) == (if t.returned.Some? then t.next else 0)
            && Gain(j, m, RequestsThatTried) == One(t.returned.Some?)
            && Gain(j, m, AllRequests) == One(t.returned.Some?)
            && Go(j, m).phase == if t.returned.Some? then Ended(t.next, t.begun) else InRace(t)
  {
    hide Total, Step, Inv, RaceRecords, Drops, WinRecords;
    var p, s := j.plan, j.phase.state;
    RaceBooks(p, s, m.event, m.took);
    RaceReportsNoRequest(p, s, m.event, m.took);
    EveryPassLaunchesOne(p, s, m.event);
    var t := Step(p, s, m.event);
    if t.returned.Some? {
      StepHolds(p, s, m.event);
      CloseIsSilent(p, t, m.took);
    }
  }

  lemma RaceBooksHold(j: Job, m: Move)
    requires Shape(j) && Books(j) && MayMove(j, m) && m.Race?
    ensures Books(Go(j, m))
  {
    hide Total;
    RaceGains(j, m);
    GoTotals(j, m, AllFailovers);
    GoTotals(j, m, AllHedges);
    GoTotals(j, m, AllRequestAttempts);
    GoTotals(j, m, RequestsThatTried);
    GoTotals(j, m, AllRequests);
  }

  lemma LandGains(j: Job, m: Move)
    requires MayMove(j, m) && m.Land?
    ensures var again := j.plan.outcome(j.phase.tried - 1).FailsRetryably() && j.phase.tried < j.plan.Limit();
            && Gain(j, m, AllFailovers) == One(again)
            && Gain(j, m, AllHedges) == 0
            && Gain(j, m, AllRequestAttempts) == (if again then 0 else j.phase.tried)
            && Gain(j, m, RequestsThatTried) == One(!again)
            && Gain(j, m, AllRequests) == One(!again)
            && Go(j, m).phase
                    == if again then InWalk(j.phase.tried, true) else Ended(j.phase.tried, Below(j.phase.tried))
  {
  }

  lemma LandBooksHold(j: Job, m: Move)
    requires Shape(j) && Books(j) && MayMove(j, m) && m.Land?
    ensures Books(Go(j, m))
  {
    hide Total;
    LandGains(j, m);
    GoTotals(j, m, AllFailovers);
    GoTotals(j, m, AllHedges);
    GoTotals(j, m, AllRequestAttempts);
    GoTotals(j, m, RequestsThatTried);
    GoTotals(j, m, AllRequests);
  }

  lemma HangUpBooksHold(j: Job, m: Move)
    requires Shape(j) && Books(j) && MayMove(j, m) && m.HangUp?
    ensures Books(Go(j, m))
  {
    hide Total;
    GoTotals(j, m, AllFailovers);
    GoTotals(j, m, AllHedges);
    GoTotals(j, m, AllRequestAttempts);
    GoTotals(j, m, RequestsThatTried);
    GoTotals(j, m, AllRequests);
    HangUpIsSilent(j.plan, j.Armed(), j.Launched(), m.took);
  }

  lemma BooksHold(j: Job, m: Move)
    requires Shape(j) && Books(j) && MayMove(j, m)
    ensures Books(Go(j, m))
  {
    hide Total;
    match m
    case Race(_, _, _) => RaceBooksHold(j, m);
    case Land(_, _) => LandBooksHold(j, m);
    case HangUp(_) => HangUpBooksHold(j, m);
    case Wake =>
  }

  // Attempts

  lemma {:induction false} NoHits(p: Plan, u: UpstreamId, n: nat)
    ensures Hits(p, u, {}, n) == 0
  {
    if n > 0 {
      NoHits(p, u, n - 1);
    }
  }

  lemma ArmedAfter(p: Plan, s: State, e: Event)
    requires Inv(p, s) && Enabled(p, s, e)
    ensures var t := Step(p, s, e);
            match e
            case Begin(i) => i !in s.begun && t.begun == s.begun + {i} && ArmedIn(t) == ArmedIn(s) + {i}
            case Timer => t.begun == s.begun && ArmedIn(t) == ArmedIn(s)
            case Complete(i) => i in ArmedIn(s) && i < |p.chain| && t.begun == s.begun && ArmedIn(t) == ArmedIn(s) - {i}
  {
    hide Caused, Explained, HedgeCount, Racing, Decided;
    assert Launches(p, s);
    assert s.next !in s.begun;
    var t := Step(p, s, e);
    match e
    case Begin(i) => assert i < s.next;
    case Timer => assert t.inflight.Keys == s.inflight.Keys + {s.next};
    case Complete(i) =>
      assert i < s.next;
      assert t.inflight.Keys == s.inflight.Keys - {i} || t.inflight.Keys == s.inflight.Keys - {i} + {s.next};
  }

  /** An attempt that begins arms its guard; one that finishes is recorded as it disarms it. */
  lemma RaceAttempts(p: Plan, s: State, e: Event, took: nat -> nat, u: UpstreamId)
    requires Inv(p, s) && Enabled(p, s, e)
    ensures var t, n := Step(p, s, e), |p.chain|;
            Total(RaceRecords(p, s, e, took), Scores.AttemptsOn(u)) + Hits(p, u, ArmedIn(t), n)
            - Hits(p, u, ArmedIn(s), n) == Hits(p, u, t.begun, n) - Hits(p, u, s.begun, n)
  {
    hide Total, Inv;
    RaceTotals(p, s, e, took, Scores.AttemptsOn(u));
    ArmedAfter(p, s, e);
    var armed := ArmedIn(s);
    match e
    case Begin(i) =>
      HitsAdd(p, u, s.begun, i, |p.chain|);
      HitsAdd(p, u, armed, i, |p.chain|);
    case Timer =>
    case Complete(i) =>
      HitsAdd(p, u, armed - {i}, i, |p.chain|);
      assert armed - {i} + {i} == armed;
  }

  ghost predicate AttemptsBalance(j: Job, u: UpstreamId) {
    Total(j.log, Scores.AttemptsOn(u)) + Hits(j.plan, u, j.Armed(), |j.plan.chain|)
    == Hits(j.plan, u, j.Begun(), |j.plan.chain|)
  }

  lemma RaceAttemptGain(j: Job, m: Move, u: UpstreamId)
    requires Shape(j) && MayMove(j, m) && m.Race?
    ensures var k, n := Go(j, m), |j.plan.chain|;
            Gain(j, m, Scores.AttemptsOn(u)) + Hits(j.plan, u, k.Armed(), n) - Hits(j.plan, u, j.Armed(), n)
            == Hits(j.plan, u, k.Begun(), n) - Hits(j.plan, u, j.Begun(), n)
  {
    hide Total;
    var p, s, n := j.plan, j.phase.state, |j.plan.chain|;
    RaceAttempts(p, s, m.event, m.took, u);
    var t := Step(p, s, m.event);
    if t.returned.Some? {
      EveryPassLaunchesOne(p, s, m.event);
      ArmedIsLaunched(p, s, m.event);
      HitsDrops(p, u, ArmedIn(t), t.next, m.took);
      HitsBeyond(p, u, ArmedIn(t), t.next, n);
      WinTotals(p, t.returned.value, Scores.AttemptsOn(u));
      NoHits(p, u, n);
    }
  }

  lemma ArmedIsLaunched(p: Plan, s: State, e: Event)
    requires Inv(p, s) && Enabled(p, s, e)
    ensures forall i :: i in ArmedIn(Step(p, s, e)) ==> i < Step(p, s, e).next
  {
    StepHolds(p, s, e);
    assert Launches(p, Step(p, s, e));
  }

  lemma RestAttemptGain(j: Job, m: Move, u: UpstreamId)
    requires Shape(j) && MayMove(j, m) && !m.Race?
    ensures var k, n := Go(j, m), |j.plan.chain|;
            Gain(j, m, Scores.AttemptsOn(u)) + Hits(j.plan, u, k.Armed(), n) - Hits(j.plan, u, j.Armed(), n)
            == Hits(j.plan, u, k.Begun(), n) - Hits(j.plan, u, j.Begun(), n)
  {
    hide Total;
    var p, n := j.plan, |j.plan.chain|;
    NoHits(p, u, n);
    match m
    case HangUp(took) =>
      ArmedBelow(j);
      HitsDrops(p, u, j.Armed(), j.Launched(), took);
      HitsBeyond(p, u, j.Armed(), j.Launched(), n);
    case Land(_, _) =>
      HitsAdd(p, u, {}, j.phase.tried - 1, n);
      assert {} + {j.phase.tried - 1} == j.Armed();
    case Wake =>
      var tried := j.phase.tried;
      HitsAdd(p, u, Below(tried), tried, n);
      HitsAdd(p, u, {}, tried, n);
      assert {} + {tried} == Go(j, m).Armed();
  }

  lemma ArmedBelow(j: Job)
    requires Shape(j)
    ensures j.Launched() <= |j.plan.chain|
    ensures forall i :: i in j.Armed() ==> i < j.Launched()
  {
    if j.phase.InRace? {
      assert Launches(j.plan, j.phase.state);
    }
  }

  lemma AttemptBooksHold(j: Job, m: Move, u: UpstreamId)
    requires Shape(j) && AttemptsBalance(j, u) && MayMove(j, m)
    ensures AttemptsBalance(Go(j, m), u)
  {
    hide Total;
    GoTotals(j, m, Scores.AttemptsOn(u));
    if m.Race? { RaceAttemptGain(j, m, u); } else { RestAttemptGain(j, m, u); }
  }

  // Hedges

  /** Whether a move starts, or wins, a hedge from `a` to `b`. */
  predicate Starts(j: Job, m: Move, a: UpstreamId, b: UpstreamId)
    requires MayMove(j, m)
  {
    m.Race? && m.event.Timer? &&
    a == Id(j.plan, j.phase.state.next - 1) && b == Id(j.plan, j.phase.state.next)
  }

  predicate Wins(j: Job, m: Move, a: UpstreamId, b: UpstreamId)
    requires MayMove(j, m)
  {
    m.Race? &&
    var t := Step(j.plan, j.phase.state, m.event);
    && t.returned.Some? && t.returned.value.result.Won? && t.returned.value.result.cause.Hedged?
    && a == Id(j.plan, t.returned.value.result.cause.overtaken) && b == Id(j.plan, t.returned.value.result.index)
  }

  lemma HedgeGain(j: Job, m: Move, a: UpstreamId, b: UpstreamId)
    requires MayMove(j, m)
    ensures Gain(j, m, Hedges(a, b)) == One(Starts(j, m, a, b))
    ensures Gain(j, m, HedgeWins(a, b)) == One(Wins(j, m, a, b))
  {
    hide Total;
    match m
    case Race(e, took, elapsed) =>
      var p, s := j.plan, j.phase.state;
      var t := Step(p, s, e);
      RaceTotals(p, s, e, took, Hedges(a, b));
      RaceTotals(p, s, e, took, HedgeWins(a, b));
      DropsAreAttempts(p, ArmedIn(t), t.next, took, Hedges(a, b));
      DropsAreAttempts(p, ArmedIn(t), t.next, took, HedgeWins(a, b));
      if t.returned.Some? {
        WinTotals(p, t.returned.value, Hedges(a, b));
        WinTotals(p, t.returned.value, HedgeWins(a, b));
      }
    case HangUp(took) =>
      DropsAreAttempts(j.plan, j.Armed(), j.Launched(), took, Hedges(a, b));
      DropsAreAttempts(j.plan, j.Armed(), j.Launched(), took, HedgeWins(a, b));
    case _ =>
  }

  ghost predicate PairBalance(j: Job, a: UpstreamId, b: UpstreamId) {
    && Total(j.log, HedgeWins(a, b)) <= Total(j.log, Hedges(a, b))
    && (!j.Over() ==> Total(j.log, HedgeWins(a, b)) == 0)
    && (j.phase.InRace? ==>
          var causes := j.phase.state.causes;
          forall i :: 0 < i < |causes| && causes[i].Hedged? && a == Id(j.plan, i - 1) && b == Id(j.plan, i) ==>
            Total(j.log, Hedges(a, b)) > 0)
  }

  /** A winner was hedged to from the upstream just before it. */
  lemma WinnersWereHedges(p: Plan, s: State, e: Event)
    requires Inv(p, s) && Enabled(p, s, e)
    ensures var t := Step(p, s, e);
            t.returned.Some? && t.returned.value.result.Won? && t.returned.value.result.cause.Hedged? ==>
              var i := t.returned.value.result.index;
              && 0 < i < |s.causes| && s.causes[i].Hedged?
              && t.returned.value.result.cause.overtaken == i - 1
  {
    if e.Complete? { assert Explained(p, s) && Caused(s); }
  }

  lemma CausesGrow(p: Plan, s: State, e: Event)
    requires Inv(p, s) && Enabled(p, s, e)
    ensures var t := Step(p, s, e);
            && |s.causes| == s.next && s.causes <= t.causes && |t.causes| <= |s.causes| + 1
            && (|t.causes| > |s.causes| && t.causes[|s.causes|].Hedged? ==> e.Timer?)
  {
  }

  lemma PairBooksHold(j: Job, m: Move, a: UpstreamId, b: UpstreamId)
    requires Shape(j) && PairBalance(j, a, b) && MayMove(j, m)
    ensures PairBalance(Go(j, m), a, b)
  {
    hide Total;
    GoTotals(j, m, Hedges(a, b));
    GoTotals(j, m, HedgeWins(a, b));
    HedgeGain(j, m, a, b);
    if m.Race? {
      WinnersWereHedges(j.plan, j.phase.state, m.event);
      CausesGrow(j.plan, j.phase.state, m.event);
      PairByCauses(j, Go(j, m), Starts(j, m, a, b), Wins(j, m, a, b), a, b);
    }
  }

  /** The step of the argument, with the race itself out of sight. */
  lemma PairByCauses(j: Job, k: Job, starts: bool, wins: bool, a: UpstreamId, b: UpstreamId)
    requires PairBalance(j, a, b) && j.phase.InRace? && (k.phase.InRace? || k.phase.Ended?) && j.plan == k.plan
    requires Total(k.log, Hedges(a, b)) == Total(j.log, Hedges(a, b)) + One(starts)
    requires Total(k.log, HedgeWins(a, b)) == Total(j.log, HedgeWins(a, b)) + One(wins)
    requires wins ==> k.phase.Ended? && exists i ::
               0 < i < |j.phase.state.causes| && j.phase.state.causes[i].Hedged?
               && a == Id(j.plan, i - 1) && b == Id(j.plan, i)
    requires k.phase.InRace? ==>
               var was, now := j.phase.state.causes, k.phase.state.causes;
               && was <= now && |now| <= |was| + 1
               && (|now| > |was| > 0 && now[|was|].Hedged? && a == Id(j.plan, |was| - 1) && b == Id(j.plan, |was|) ==>
                     starts)
    ensures PairBalance(k, a, b)
  {
    hide Total;
  }

  // Every job, at any moment

  ghost predicate InOrder(j: Job) {
    && Shape(j)
    && Books(j)
    && (forall u :: AttemptsBalance(j, u))
    && (forall a, b :: PairBalance(j, a, b))
  }

  lemma OpenShape(plan: Plan, name: string, mode: Mode, elapsed: nat)
    ensures var j := Open(plan, name, mode, elapsed);
            || (j.phase == InRace(Launch(IDLE, First)) && j.log == [] && Shape(j))
            || (j.phase == InWalk(1, false) && j.log == [] && Shape(j))
            || (j.phase == Ended(0, {}) && j.log == [Request(name, false, 0, elapsed)] && Shape(j))
  {
    StartHolds(plan);
    if plan.Limit() > 0 {
      assert 0 in Launch(IDLE, First).inflight;
    }
  }

  lemma OpenInOrder(plan: Plan, name: string, mode: Mode, elapsed: nat)
    ensures InOrder(Open(plan, name, mode, elapsed))
  {
    hide Total, Inv, Start;
    var j := Open(plan, name, mode, elapsed);
    OpenShape(plan, name, mode, elapsed);
    forall m ensures Total(j.log, m) == if j.phase.Ended? then Measure(m, Request(name, false, 0, elapsed)) else 0 {
      TotalNone(m);
      SingleTotal(Request(name, false, 0, elapsed), m);
    }
    forall u ensures AttemptsBalance(j, u) {
      NoHits(j.plan, u, |j.plan.chain|);
      if j.phase.InWalk? { assert Below(1) == {0}; }
      if j.phase.InRace? { assert j.Armed() == {}; }
    }
  }

  lemma GoInOrder(j: Job, m: Move)
    requires InOrder(j) && MayMove(j, m)
    ensures InOrder(Go(j, m))
  {
    hide Total;
    ShapeHolds(j, m);
    BooksHold(j, m);
    forall u { AttemptBooksHold(j, m, u); }
    forall a, b { PairBooksHold(j, m, a, b); }
  }

  // Any number of jobs, in any order

  /** The log is what the observer was told, by all jobs, in the order they told it. */
  datatype World = World(jobs: seq<Job>, log: seq<Record>)

  datatype Input =
    | Arrive(plan: Plan, name: string, mode: Mode, elapsed: nat)
    | At(index: nat, move: Move)

  predicate MayHappen(w: World, input: Input) {
    input.At? ==> input.index < |w.jobs| && MayMove(w.jobs[input.index], input.move)
  }

  lemma GoExtends(j: Job, m: Move)
    requires MayMove(j, m)
    ensures j.log <= Go(j, m).log
  {
  }

  function Happen(w: World, input: Input): World
    requires MayHappen(w, input)
  {
    match input
    case Arrive(plan, name, mode, elapsed) =>
      var j := Open(plan, name, mode, elapsed);
      World(w.jobs + [j], w.log + j.log)
    case At(k, move) =>
      GoExtends(w.jobs[k], move);
      var j := Go(w.jobs[k], move);
      World(w.jobs[k := j], w.log + j.log[|w.jobs[k].log|..])
  }

  function Live(inputs: seq<Input>): Option<World> {
    if inputs == [] then Some(World([], []))
    else
      var before := Live(inputs[..|inputs| - 1]);
      var input := inputs[|inputs| - 1];
      if before.Some? && MayHappen(before.value, input) then Some(Happen(before.value, input)) else None
  }

  function Booked(jobs: seq<Job>, m: Metric): nat {
    if jobs == [] then 0 else Booked(jobs[..|jobs| - 1], m) + Total(jobs[|jobs| - 1].log, m)
  }

  lemma {:induction false} BookedReplace(jobs: seq<Job>, k: nat, j: Job, m: Metric)
    requires k < |jobs|
    ensures Booked(jobs[k := j], m) == Booked(jobs, m) - Total(jobs[k].log, m) + Total(j.log, m)
  {
    hide Total;
    var init := jobs[..|jobs| - 1];
    if k == |jobs| - 1 {
      assert jobs[k := j][..|jobs| - 1] == init;
    } else {
      assert jobs[k := j][..|jobs| - 1] == init[k := j];
      BookedReplace(init, k, j, m);
    }
  }

  ghost predicate Balanced(w: World, m: Metric) {
    && (forall k :: 0 <= k < |w.jobs| ==> InOrder(w.jobs[k]))
    && Total(w.log, m) == Booked(w.jobs, m)
  }

  lemma ArriveBalanced(w: World, input: Input, m: Metric)
    requires Balanced(w, m) && input.Arrive?
    ensures Balanced(Happen(w, input), m)
  {
    hide Total, Open, InOrder;
    var j := Open(input.plan, input.name, input.mode, input.elapsed);
    OpenInOrder(input.plan, input.name, input.mode, input.elapsed);
    TotalConcat(w.log, j.log, m);
    assert (w.jobs + [j])[..|w.jobs|] == w.jobs;
  }

  lemma MoveBalanced(w: World, input: Input, m: Metric)
    requires Balanced(w, m) && input.At? && MayHappen(w, input)
    ensures Balanced(Happen(w, input), m)
  {
    hide Total, Go, InOrder, MayMove;
    var was, now := w.jobs[input.index], Go(w.jobs[input.index], input.move);
    GoInOrder(was, input.move);
    GoExtends(was, input.move);
    BookedReplace(w.jobs, input.index, now, m);
    TotalConcat(w.log, now.log[|was.log|..], m);
    TotalConcat(was.log, now.log[|was.log|..], m);
    assert was.log + now.log[|was.log|..] == now.log;
  }

  lemma {:induction false} WorldInOrder(inputs: seq<Input>, m: Metric)
    requires Live(inputs).Some?
    ensures Balanced(Live(inputs).value, m)
  {
    if inputs != [] {
      var sofar, input := inputs[..|inputs| - 1], inputs[|inputs| - 1];
      WorldInOrder(sofar, m);
      if input.Arrive? {
        ArriveBalanced(Live(sofar).value, input, m);
      } else {
        MoveBalanced(Live(sofar).value, input, m);
      }
    }
  }

  // The books of the whole world

  /** The calls but the first of the jobs that never reported their attempts, and the one
      a job asleep is yet to make. */
  function Surplus(jobs: seq<Job>): int {
    if jobs == [] then 0
    else
      var j := jobs[|jobs| - 1];
      Surplus(jobs[..|jobs| - 1]) + if j.phase.Ended? then 0 else j.Launched() - 1 + One(j.Asleep())
  }

  /** The finished requests that had no one to try. */
  function Untried(jobs: seq<Job>): nat {
    if jobs == [] then 0
    else
      var j := jobs[|jobs| - 1];
      Untried(jobs[..|jobs| - 1]) + One(j.phase.Ended? && j.Launched() == 0)
  }

  lemma {:induction false} BooksAdd(jobs: seq<Job>)
    requires forall k :: 0 <= k < |jobs| ==> Books(jobs[k])
    ensures Booked(jobs, AllRequestAttempts) + Surplus(jobs)
            == Booked(jobs, RequestsThatTried) + Booked(jobs, AllFailovers) + Booked(jobs, AllHedges)
    ensures Booked(jobs, AllRequests) == Booked(jobs, RequestsThatTried) + Untried(jobs)
  {
    hide Total;
    if jobs != [] {
      BooksAdd(jobs[..|jobs| - 1]);
      assert Books(jobs[|jobs| - 1]);
    }
  }

  /** Over any number of concurrent requests, at any moment: the attempts of finished
      requests are the requests that tried anyone, plus the failovers, plus the hedges,
      but for a surplus of announced calls: each request running or dropped accounts for
      all its calls but the first, and for one more if it is, or was dropped, asleep. */
  lemma AttemptsAreAccountedFor(inputs: seq<Input>)
    requires Live(inputs).Some?
    ensures var w := Live(inputs).value;
            Total(w.log, AllRequestAttempts) + Surplus(w.jobs)
            == Total(w.log, RequestsThatTried) + Total(w.log, AllFailovers) + Total(w.log, AllHedges)
    ensures var w := Live(inputs).value; Total(w.log, AllRequests) == Total(w.log, RequestsThatTried) + Untried(w.jobs)
  {
    hide Total;
    WorldInOrder(inputs, AllRequestAttempts);
    WorldInOrder(inputs, RequestsThatTried);
    WorldInOrder(inputs, AllRequests);
    WorldInOrder(inputs, AllFailovers);
    WorldInOrder(inputs, AllHedges);
    BooksAdd(Live(inputs).value.jobs);
  }

  lemma {:induction false} PairsAdd(jobs: seq<Job>, a: UpstreamId, b: UpstreamId)
    requires forall k :: 0 <= k < |jobs| ==> PairBalance(jobs[k], a, b)
    ensures Booked(jobs, HedgeWins(a, b)) <= Booked(jobs, Hedges(a, b))
  {
    hide Total;
    if jobs != [] {
      PairsAdd(jobs[..|jobs| - 1], a, b);
      assert PairBalance(jobs[|jobs| - 1], a, b);
    }
  }

  /** For every ordered pair, hedge wins never exceed hedges started, at any moment. */
  lemma WinsNeverExceedHedges(inputs: seq<Input>, a: UpstreamId, b: UpstreamId)
    requires Live(inputs).Some?
    ensures Total(Live(inputs).value.log, HedgeWins(a, b)) <= Total(Live(inputs).value.log, Hedges(a, b))
  {
    hide Total;
    WorldInOrder(inputs, HedgeWins(a, b));
    WorldInOrder(inputs, Hedges(a, b));
    PairsAdd(Live(inputs).value.jobs, a, b);
  }

  function BegunOn(jobs: seq<Job>, u: UpstreamId): nat {
    if jobs == [] then 0
    else BegunOn(jobs[..|jobs| - 1], u) + var j := jobs[|jobs| - 1]; Hits(j.plan, u, j.Begun(), |j.plan.chain|)
  }

  function ArmedOn(jobs: seq<Job>, u: UpstreamId): nat {
    if jobs == [] then 0
    else ArmedOn(jobs[..|jobs| - 1], u) + var j := jobs[|jobs| - 1]; Hits(j.plan, u, j.Armed(), |j.plan.chain|)
  }

  function LaunchedOn(jobs: seq<Job>, u: UpstreamId): nat {
    if jobs == [] then 0
    else
      var j := jobs[|jobs| - 1];
      LaunchedOn(jobs[..|jobs| - 1], u) + Hits(j.plan, u, Below(j.Launched()), |j.plan.chain|)
  }

  lemma BegunIsLaunched(j: Job)
    requires Shape(j)
    ensures j.Begun() <= Below(j.Launched())
  {
    if j.phase.InRace? {
      assert Launches(j.plan, j.phase.state);
    }
  }

  lemma {:induction false} AttemptsAdd(jobs: seq<Job>, u: UpstreamId)
    requires forall k :: 0 <= k < |jobs| ==> Shape(jobs[k]) && AttemptsBalance(jobs[k], u)
    ensures Booked(jobs, Scores.AttemptsOn(u)) + ArmedOn(jobs, u) == BegunOn(jobs, u) <= LaunchedOn(jobs, u)
    ensures (forall k :: 0 <= k < |jobs| ==> jobs[k].Over()) ==> ArmedOn(jobs, u) == 0
  {
    hide Total;
    if jobs != [] {
      AttemptsAdd(jobs[..|jobs| - 1], u);
      var j := jobs[|jobs| - 1];
      assert AttemptsBalance(j, u) && Shape(j);
      BegunIsLaunched(j);
      HitsGrow(j.plan, u, j.Begun(), Below(j.Launched()), |j.plan.chain|);
      NoHits(j.plan, u, |j.plan.chain|);
    }
  }

  /** Every attempt that begins is recorded on its upstream once, whether it finishes or
      is dropped: recorded plus still armed is begun, and no more than launched.  Once
      every request is over, the attempt count rendered for an upstream is exactly the
      number of attempts begun there. */
  lemma AttemptsAreRecordedOnce(inputs: seq<Input>, u: UpstreamId)
    requires Live(inputs).Some?
    ensures var w := Live(inputs).value;
            && Total(w.log, Scores.AttemptsOn(u)) + ArmedOn(w.jobs, u) == BegunOn(w.jobs, u) <= LaunchedOn(w.jobs, u)
            && ((forall k :: 0 <= k < |w.jobs| ==> w.jobs[k].Over()) ==>
                  Scores.AttemptCount(Observer.SnapshotOf(w.log, u)) == BegunOn(w.jobs, u))
  {
    hide Total;
    WorldInOrder(inputs, Scores.AttemptsOn(u));
    AttemptsAdd(Live(inputs).value.jobs, u);
    Scores.AttemptCountIsExact(Live(inputs).value.log, u);
  }

  /** The same as the observer shows it: for every pair it knows, wins never exceed starts;
      and once every request is over, the seven outcomes of an upstream add up to the
      attempts begun there. */
  lemma ObserverShows(observer: Observer.MetricsObserver, inputs: seq<Input>, a: UpstreamId, b: UpstreamId)
    requires Live(inputs).Some? && observer.Valid() && observer.log == Live(inputs).value.log
    requires a in observer.fleet && b in observer.fleet && a != b
    ensures (a, b) in observer.hedges && observer.hedges[(a, b)].won <= observer.hedges[(a, b)].started
    ensures a in observer.stats
    ensures (forall k :: 0 <= k < |Live(inputs).value.jobs| ==> Live(inputs).value.jobs[k].Over()) ==>
              Scores.AttemptCount(observer.stats[a]) == BegunOn(Live(inputs).value.jobs, a)
  {
    hide Total;
    Observer.HedgesAreTotals(observer.log, observer.fleet, observer.names, a, b);
    Observer.SnapshotsAreTotals(observer.log, observer.fleet, observer.names, a);
    WinsNeverExceedHedges(inputs, a, b);
    AttemptsAreRecordedOnce(inputs, a);
  }
}
