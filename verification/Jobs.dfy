/**
 * What the observer is told of one request, against the loops that serve it
 * (src/proxy/mod.rs:197-343): however its awaits interleave with other requests and
 * wherever it could have been dropped, a request that ends has told what its loop says.
 */
module Jobs {
  import opened Upstreams
  import opened Hedge
  import opened Walk
  import opened Metrics
  import opened Dispatch
  import opened Observer
  import Attempts

  /** The upstreams failed over from, in the order the observer heard of them. */
  function FailoversIn(log: seq<Record>): seq<UpstreamId> {
    if log == [] then []
    else
      var last := log[|log| - 1];
      FailoversIn(log[..|log| - 1]) + if last.Failover? then [last.from] else []
  }

  lemma {:induction false} FailoversConcat(a: seq<Record>, b: seq<Record>)
    ensures FailoversIn(a + b) == FailoversIn(a) + FailoversIn(b)
  {
    if b == [] {
      assert a + b == a;
    } else {
      var init := b[..|b| - 1];
      assert (a + b)[..|a + b| - 1] == a + init;
      FailoversConcat(a, init);
    }
  }

  lemma FailoversPush(log: seq<Record>, r: Record)
    ensures FailoversIn(log + [r]) == FailoversIn(log) + if r.Failover? then [r.from] else []
  {
    assert (log + [r])[..|log|] == log;
  }

  lemma {:induction false} DropsAreSilent(p: Plan, armed: set<nat>, n: nat, took: nat -> nat)
    ensures FailoversIn(Drops(p, armed, n, took)) == []
  {
    if n > 0 {
      DropsAreSilent(p, armed, n - 1, took);
      var sofar := Drops(p, armed, n - 1, took);
      if n - 1 in armed {
        FailoversPush(sofar, Attempt(Id(p, n - 1), Dropped(took(n - 1))));
      } else {
        assert sofar + [] == sofar;
      }
    }
  }

  /** The observer's account of a finished request: who was failed over from, and last of
      all the request, with how it ended and how many calls it launched. */
  ghost predicate Told(j: Job, finished: Finished) {
    && FailoversIn(j.log) == finished.failovers
    && j.log != []
    && var last := j.log[|j.log| - 1];
    && last.Request? && last.name == j.name
    && last.answered == finished.result.Success? && last.attempts == |finished.tried|
  }

  // The whole account, but for the clock

  function Erased(r: Record): Record {
    match r
    case Attempt(u, Measured(outcome, _)) => Attempt(u, Measured(outcome, 0))
    case Attempt(u, Dropped(_)) => Attempt(u, Dropped(0))
    case Request(name, answered, attempts, _) => Request(name, answered, attempts, 0)
    case _ => r
  }

  /** A log with every duration erased. */
  function Timeless(log: seq<Record>): seq<Record> {
    seq(|log|, i requires 0 <= i < |log| => Erased(log[i]))
  }

  lemma TimelessConcat(a: seq<Record>, b: seq<Record>)
    ensures Timeless(a + b) == Timeless(a) + Timeless(b)
  {
  }

  function NoTime(i: nat): nat {
    0
  }

  function Landed(p: Plan, i: nat): Record {
    Attempt(Id(p, i), Measured(p.outcome(i), 0))
  }

  /** The first `k` calls of the chain, each landing and each failed over from. */
  function FailingOver(p: Plan, k: nat): seq<Record> {
    if k == 0 then [] else FailingOver(p, k - 1) + [Landed(p, k - 1), Failover(Id(p, k - 1))]
  }

  /** Everything a walk tells: each try lands, all but the last are failed over from, and
      the request is reported. */
  function WalkAccount(p: Plan, name: string): seq<Record> {
    var n := Tries(p);
    if n == 0 then [Request(name, false, 0, 0)]
    else FailingOver(p, n - 1) + [Landed(p, n - 1), Request(name, p.outcome(n - 1).Answered?, n, 0)]
  }

  function Played(j: Job, moves: seq<Move>): Option<Job> {
    if moves == [] then Some(j)
    else
      var before := Played(j, moves[..|moves| - 1]);
      var m := moves[|moves| - 1];
      if before.Some? && MayMove(before.value, m) then Some(Go(before.value, m)) else None
  }

  // A job that walks

  ghost predicate Walking(j: Job) {
    var p := j.plan;
    match j.phase
    case InWalk(tried, sleeping) =>
      var failed := if sleeping then tried else tried - 1;
      && 0 < tried <= p.Limit() && (sleeping ==> tried < p.Limit())
      && (forall i: nat :: i < failed ==> p.outcome(i).FailsRetryably())
      && FailoversIn(j.log) == Ids(p.chain)[..failed]
      && Timeless(j.log) == FailingOver(p, failed)
    case Ended(_, _) => Told(j, Walked(p)) && Timeless(j.log) == WalkAccount(p, j.name)
    case HungUp(_, _, _) => true
    case InRace(_) => false
  }

  /** The call just made was the last one. */
  lemma WalkEnds(p: Plan, tried: nat)
    requires 0 < tried <= p.Limit()
    requires forall i: nat :: i < tried - 1 ==> p.outcome(i).FailsRetryably()
    requires tried == p.Limit() || !p.outcome(tried - 1).FailsRetryably()
    ensures Walked(p) == Finished(EndingOf(p, tried - 1), Ids(p.chain)[..tried], Ids(p.chain)[..tried - 1])
    ensures Tries(p) == tried
  {
    var k := if p.outcome(tried - 1).FailsRetryably() then tried else tried - 1;
    DecisiveIsFirst(p, 0, k);
    DecisiveIsFirst(p, k, k);
    hide Walked, Decisive, Tries;
    if k == tried { RunsOut(p); } else { Settles(p, k); }
  }

  lemma LandWalks(j: Job, m: Move)
    requires Walking(j) && MayMove(j, m) && m.Land?
    ensures Walking(Go(j, m))
  {
    hide Walked, FailoversIn, Timeless, Tries, FailingOver;
    LandTells(j, m);
    var p, tried := j.plan, j.phase.tried;
    var outcome := p.outcome(tried - 1);
    var a := Attempt(Id(p, tried - 1), Measured(outcome, m.micros));
    FailoversPush(j.log, a);
    if outcome.FailsRetryably() && tried < p.Limit() {
      FailoversPush(j.log + [a], Failover(Id(p, tried - 1)));
      assert Ids(p.chain)[..tried] == Ids(p.chain)[..tried - 1] + [Id(p, tried - 1)];
      OneMore(p, tried - 1);
    } else {
      FailoversPush(j.log + [a], Request(j.name, outcome.Answered?, tried, m.elapsed));
      WalkEnds(p, tried);
      AddTwo(FailingOver(p, tried - 1), Landed(p, tried - 1), Request(j.name, outcome.Answered?, tried, 0));
    }
  }

  lemma AddTwo(log: seq<Record>, a: Record, b: Record)
    ensures log + [a] + [b] == log + [a, b]
  {
  }

  lemma OneMore(p: Plan, k: nat)
    ensures FailingOver(p, k) + [Landed(p, k)] + [Failover(Id(p, k))] == FailingOver(p, k + 1)
  {
    AddTwo(FailingOver(p, k), Landed(p, k), Failover(Id(p, k)));
  }

  lemma LandTells(j: Job, m: Move)
    requires MayMove(j, m) && m.Land?
    ensures var p, tried := j.plan, j.phase.tried;
            Timeless(Go(j, m).log) == Timeless(j.log) + [Landed(p, tried - 1)]
              + if p.outcome(tried - 1).FailsRetryably() && tried < p.Limit() then [Failover(Id(p, tried - 1))]
                else [Request(j.name, p.outcome(tried - 1).Answered?, tried, 0)]
  {
  }

  lemma MoveWalks(j: Job, m: Move)
    requires Walking(j) && MayMove(j, m)
    ensures Walking(Go(j, m))
  {
    if m.Land? { LandWalks(j, m); }
  }

  lemma OpenWalks(plan: Plan, name: string, mode: Mode, elapsed: nat)
    requires !mode.Hedging?
    ensures Walking(Open(plan, name, mode, elapsed))
  {
    var j := Open(plan, name, mode, elapsed);
    if j.plan.Limit() == 0 {
      RunsOut(j.plan);
      FailoversPush([], Request(name, false, 0, elapsed));
      assert [] + [Request(name, false, 0, elapsed)] == [Request(name, false, 0, elapsed)];
    }
  }

  lemma {:induction false} KeepsWalking(plan: Plan, name: string, mode: Mode, elapsed: nat, moves: seq<Move>)
    requires !mode.Hedging? && Played(Open(plan, name, mode, elapsed), moves).Some?
    ensures var j := Played(Open(plan, name, mode, elapsed), moves).value;
            Walking(j) && j.name == name && j.plan == if mode.SendOnce? then plan.(maxAttempt := 1) else plan
  {
    if moves == [] {
      OpenWalks(plan, name, mode, elapsed);
    } else {
      var sofar := moves[..|moves| - 1];
      KeepsWalking(plan, name, mode, elapsed, sofar);
      MoveWalks(Played(Open(plan, name, mode, elapsed), sofar).value, moves[|moves| - 1]);
    }
  }

  /** A sequential request that ends has told what the walk comes to, call by call, and a
      write under hedging what a walk of one call comes to. */
  lemma WalkJobsWalk(plan: Plan, name: string, mode: Mode, elapsed: nat, moves: seq<Move>)
    requires !mode.Hedging? && Played(Open(plan, name, mode, elapsed), moves).Some?
    requires Played(Open(plan, name, mode, elapsed), moves).value.phase.Ended?
    ensures var j := Played(Open(plan, name, mode, elapsed), moves).value;
            var p := if mode.SendOnce? then plan.(maxAttempt := 1) else plan;
            Timeless(j.log) == WalkAccount(p, name) && Told(j, Walked(p))
  {
    KeepsWalking(plan, name, mode, elapsed, moves);
  }

  // The walk with its guards and its observer

  /** What the walk has told after `tried` calls, the newest landed and not yet passed by. */
  function Behind(p: Plan, tried: nat): seq<Record> {
    if tried == 0 then [] else FailingOver(p, tried - 1) + [Landed(p, tried - 1)]
  }

  lemma TimelessPush(log: seq<Record>, r: Record)
    ensures Timeless(log + [r]) == Timeless(log) + [Erased(r)]
  {
  }

  lemma AccountEnds(p: Plan, name: string, tried: nat)
    requires tried <= p.Limit() && forall i: nat :: i < tried - 1 ==> p.outcome(i).FailsRetryably()
    requires tried == p.Limit() || (tried > 0 && !p.outcome(tried - 1).FailsRetryably())
    ensures WalkAccount(p, name) ==
            Behind(p, tried) + [Request(name, tried > 0 && p.outcome(tried - 1).Answered?, tried, 0)]
  {
    if tried == 0 {
      RunsOut(p);
    } else {
      WalkEnds(p, tried);
      hide Tries;
      AddTwo(FailingOver(p, tried - 1), Landed(p, tried - 1), Request(name, p.outcome(tried - 1).Answered?, tried, 0));
    }
  }

  /** A sequential request served in one go, each call under its guard: the records it
      leaves with the observer are those of the walk.  `took` and `elapsed` read the clock. */
  method Serve(observer: MetricsObserver, p: Plan, name: string, took: nat -> nat, elapsed: nat)
    requires observer.Valid() && name in observer.names
    modifies observer
    ensures observer.Valid() && old(observer.log) <= observer.log
    ensures Timeless(observer.log[|old(observer.log)|..]) == WalkAccount(p, name)
  {
    hide WalkAccount, FailingOver, Timeless, MetricsObserver.Valid, RequestTallied;
    ghost var before, told := observer.log, [];
    assert before + told == before;
    NothingTold();
    var tried := 0;
    var answered := false;
    for k := 0 to |p.chain|
      invariant observer.Valid() && observer.log == before + told
      invariant tried == k <= p.Limit() && !answered
      invariant forall i: nat :: i < k ==> p.outcome(i).FailsRetryably()
      invariant Timeless(told) == Behind(p, k)
    {
      if tried >= p.maxAttempt {
        break;
      }
      if tried > 0 {
        observer.RecordFailover(p.chain[k - 1].id);
        TimelessPush(told, Failover(p.chain[k - 1].id));
        OneMore(p, k - 1);
        told := told + [Failover(p.chain[k - 1].id)];
      } else {
        NothingBehind(p);
      }
      tried := tried + 1;
      var result := Attempts.TryOnce(observer, p.chain[k].id, 0, took(k), Some(p.outcome(k)));
      TimelessPush(told, Attempt(p.chain[k].id, Measured(p.outcome(k), took(k))));
      told := told + [Attempt(p.chain[k].id, Measured(p.outcome(k), took(k)))];
      if !p.outcome(k).FailsRetryably() {
        answered := p.outcome(k).Answered?;
        break;
      }
    }
    observer.RecordRequest(name, answered, tried, elapsed);
    AccountEnds(p, name, tried);
    TimelessPush(told, Request(name, answered, tried, elapsed));
    told := told + [Request(name, answered, tried, elapsed)];
    assert observer.log == before + told;
  }

  lemma NothingTold()
    ensures Timeless([]) == []
  {
  }

  lemma NothingBehind(p: Plan)
    ensures Behind(p, 0) == [] && FailingOver(p, 0) == []
  {
  }

  // A job that races

  /** What a race tells on a schedule before it returns. */
  function Story(p: Plan, events: seq<Event>): seq<Record>
    requires Legal(p, events)
  {
    if events == [] then []
    else
      var sofar := events[..|events| - 1];
      Story(p, sofar) + RaceRecords(p, After(p, sofar), events[|events| - 1], NoTime)
  }

  /** Everything a race tells on a schedule: its story, the calls it abandons as it
      returns, the win of a hedge if there is one, and the request. */
  function RaceAccount(p: Plan, name: string, events: seq<Event>): seq<Record>
    requires Legal(p, events) && After(p, events).returned.Some?
  {
    var s := After(p, events);
    var raced := s.returned.value;
    Story(p, events) + Drops(p, ArmedIn(s), s.next, NoTime) + WinRecords(p, raced)
    + [Request(name, raced.result.Won?, raced.started, 0)]
  }

  lemma TimelessRecords(p: Plan, s: State, e: Event, took: nat -> nat)
    requires Enabled(p, s, e)
    ensures Timeless(RaceRecords(p, s, e, took)) == RaceRecords(p, s, e, NoTime)
  {
  }

  lemma {:induction false} TimelessDrops(p: Plan, armed: set<nat>, n: nat, took: nat -> nat)
    ensures Timeless(Drops(p, armed, n, took)) == Drops(p, armed, n, NoTime)
  {
    if n > 0 {
      TimelessDrops(p, armed, n - 1, took);
    }
  }

  function EventsOf(moves: seq<Move>): seq<Event> {
    if moves == [] then []
    else
      var last := moves[|moves| - 1];
      EventsOf(moves[..|moves| - 1]) + if last.Race? then [last.event] else []
  }

  ghost predicate Reportable(p: Plan, s: State) {
    && s.next <= |p.chain|
    && (forall i :: 0 <= i < |s.causes| && s.causes[i].FailedOver? ==> s.causes[i].from < |p.chain|)
    && (s.returned.Some? ==>
          && s.returned.value.started == s.next
          && (s.returned.value.result.Won? ==> s.returned.value.result.index < |p.chain|))
  }

  lemma AlwaysReportable(p: Plan, s: State)
    requires Inv(p, s)
    ensures Reportable(p, s)
  {
    if s.returned.Some? && s.returned.value.result.Won? {
      assert s.returned.value.result.index in s.done;
    }
  }

  ghost predicate RacingOn(j: Job, events: seq<Event>) {
    var p := j.plan;
    match j.phase
    case InRace(s) =>
      && Legal(p, events) && s == After(p, events) && s.returned.None?
      && Reportable(p, s) && FailoversIn(j.log) == FailoversOf(p, s.causes)
      && Timeless(j.log) == Story(p, events)
    case Ended(_, _) =>
      && Legal(p, events) && After(p, events).returned.Some? && Reportable(p, After(p, events))
      && Told(j, Report(p, After(p, events).returned.value, After(p, events).causes))
      && Timeless(j.log) == RaceAccount(p, j.name, events)
    case HungUp(_, _, _) => true
    case InWalk(_, _) => false
  }

  /** The observer hears of a failover exactly when the race launches one. */
  lemma RecordsAreCauses(p: Plan, s: State, e: Event, took: nat -> nat)
    requires Inv(p, s) && Enabled(p, s, e)
    ensures Reportable(p, s) && Reportable(p, Step(p, s, e))
    ensures FailoversOf(p, Step(p, s, e).causes) == FailoversOf(p, s.causes) + FailoversIn(RaceRecords(p, s, e, took))
  {
    hide Inv, Step, RaceRecords, FailoversIn, FailoversOf;
    AlwaysReportable(p, s);
    StepHolds(p, s, e);
    AlwaysReportable(p, Step(p, s, e));
    StepCauses(p, s, e);
    RecordedFailovers(p, s, e, took);
    if e.Timer? {
      CausePush(p, s.causes, Hedged(s.next - 1));
    } else if e.Complete? && p.outcome(e.index).FailsRetryably() && s.next < p.Limit() {
      CausePush(p, s.causes, FailedOver(e.index));
    } else {
      assert Step(p, s, e).causes == s.causes;
    }
  }

  lemma CausePush(p: Plan, causes: seq<Cause>, cause: Cause)
    requires forall i :: 0 <= i < |causes| && causes[i].FailedOver? ==> causes[i].from < |p.chain|
    requires cause.FailedOver? ==> cause.from < |p.chain|
    ensures FailoversOf(p, causes + [cause]) ==
            FailoversOf(p, causes) + if cause.FailedOver? then [Id(p, cause.from)] else []
  {
    assert (causes + [cause])[..|causes|] == causes;
  }

  lemma StepCauses(p: Plan, s: State, e: Event)
    requires Inv(p, s) && Enabled(p, s, e)
    ensures Step(p, s, e).causes ==
            s.causes + if e.Timer? then [Hedged(s.next - 1)]
                       else if e.Complete? && p.outcome(e.index).FailsRetryably() && s.next < p.Limit()
                            then [FailedOver(e.index)] else []
    ensures e.Complete? ==> e.index < |p.chain|
  {
    assert e.Complete? ==> e.index in s.inflight.Keys;
  }

  lemma RecordedFailovers(p: Plan, s: State, e: Event, took: nat -> nat)
    requires Enabled(p, s, e)
    ensures FailoversIn(RaceRecords(p, s, e, took)) ==
            if e.Complete? && p.outcome(e.index).FailsRetryably() && s.next < p.Limit() then [Id(p, e.index)] else []
  {
    if e.Complete? {
      var a := Attempt(Id(p, e.index), Measured(p.outcome(e.index), took(e.index)));
      FailoversPush([], a);
      FailoversPush([a], Failover(Id(p, e.index)));
      assert [] + [a] == [a] && [a] + [] == [a];
    }
  }

  lemma CloseTells(j: Job, raced: Raced, s: State, took: nat -> nat, elapsed: nat)
    requires Reportable(j.plan, s) && s.returned == Some(raced)
    requires FailoversIn(j.log) == FailoversOf(j.plan, s.causes)
    ensures Told(Close(j, raced, s, took, elapsed), Report(j.plan, raced, s.causes))
  {
    var p := j.plan;
    var drops, win := Drops(p, ArmedIn(s), s.next, took), WinRecords(p, raced);
    FailoversPush(j.log + drops + win, Request(j.name, raced.result.Won?, raced.started, elapsed));
    FailoversConcat(j.log + drops, win);
    FailoversConcat(j.log, drops);
    DropsAreSilent(p, ArmedIn(s), s.next, took);
  }

  lemma CloseTellsAll(j: Job, raced: Raced, s: State, took: nat -> nat, elapsed: nat)
    ensures Timeless(Close(j, raced, s, took, elapsed).log) ==
            Timeless(j.log) + Drops(j.plan, ArmedIn(s), s.next, NoTime) + WinRecords(j.plan, raced)
            + [Request(j.name, raced.result.Won?, raced.started, 0)]
  {
    hide Drops;
    TimelessDrops(j.plan, ArmedIn(s), s.next, took);
    TimelessConcat(j.log, Drops(j.plan, ArmedIn(s), s.next, took));
  }

  lemma StoryPush(p: Plan, events: seq<Event>, e: Event)
    requires Legal(p, events) && Enabled(p, After(p, events), e)
    ensures Legal(p, events + [e])
    ensures Story(p, events + [e]) == Story(p, events) + RaceRecords(p, After(p, events), e, NoTime)
  {
    Extend(p, events, e);
    assert (events + [e])[..|events|] == events;
  }

  lemma MoveRaces(j: Job, m: Move, events: seq<Event>)
    requires RacingOn(j, events) && MayMove(j, m)
    ensures RacingOn(Go(j, m), if m.Race? then events + [m.event] else events)
  {
    if m.Race? {
      var p, s := j.plan, j.phase.state;
      Reachable(p, events);
      Extend(p, events, m.event);
      RecordsAreCauses(p, s, m.event, m.took);
      FailoversConcat(j.log, RaceRecords(p, s, m.event, m.took));
      StoryPush(p, events, m.event);
      TimelessRecords(p, s, m.event, m.took);
      TimelessConcat(j.log, RaceRecords(p, s, m.event, m.took));
      hide Step, Inv, Reportable, Told, Close, RaceRecords, Report, Legal, After, Story, Timeless;
      var t := Step(p, s, m.event);
      var k := j.(phase := InRace(t), log := j.log + RaceRecords(p, s, m.event, m.took));
      if t.returned.Some? {
        CloseTells(k, t.returned.value, t, m.took, m.elapsed);
        CloseTellsAll(k, t.returned.value, t, m.took, m.elapsed);
        CloseEnds(k, t.returned.value, t, m.took, m.elapsed);
      }
    }
  }

  lemma CloseEnds(j: Job, raced: Raced, s: State, took: nat -> nat, elapsed: nat)
    ensures var k := Close(j, raced, s, took, elapsed); k.plan == j.plan && k.name == j.name && k.phase.Ended?
  {
  }

  lemma OpenRaces(plan: Plan, name: string, elapsed: nat)
    ensures RacingOn(Open(plan, name, Hedging, elapsed), [])
  {
    NothingYet(plan);
    StartHolds(plan);
    AlwaysReportable(plan, Start(plan));
    var s := Start(plan);
    var j := Job(plan, name, InRace(s), []);
    assert FailoversOf(plan, s.causes) == [] by {
      if plan.Limit() > 0 { assert s.causes[..0] == []; }
    }
    if s.returned.Some? {
      CloseTells(j, s.returned.value, s, _ => 0, elapsed);
      CloseTellsAll(j, s.returned.value, s, _ => 0, elapsed);
    }
  }

  lemma {:induction false} KeepsRacing(plan: Plan, name: string, elapsed: nat, moves: seq<Move>)
    requires Played(Open(plan, name, Hedging, elapsed), moves).Some?
    ensures var j := Played(Open(plan, name, Hedging, elapsed), moves).value;
            RacingOn(j, EventsOf(moves)) && j.plan == plan && j.name == name
  {
    if moves == [] {
      OpenRaces(plan, name, elapsed);
    } else {
      hide RacingOn;
      var sofar, m := moves[..|moves| - 1], moves[|moves| - 1];
      KeepsRacing(plan, name, elapsed, sofar);
      MoveRaces(Played(Open(plan, name, Hedging, elapsed), sofar).value, m, EventsOf(sofar));
      assert EventsOf(sofar) + [] == EventsOf(sofar);
    }
  }

  /** A hedged request that ends has told what the race comes to on its schedule, record
      by record. */
  lemma RaceJobsRace(plan: Plan, name: string, elapsed: nat, moves: seq<Move>)
    requires Played(Open(plan, name, Hedging, elapsed), moves).Some?
    requires Played(Open(plan, name, Hedging, elapsed), moves).value.phase.Ended?
    ensures var events := EventsOf(moves);
            && Legal(plan, events) && After(plan, events).returned.Some? && Reportable(plan, After(plan, events))
            && var j := Played(Open(plan, name, Hedging, elapsed), moves).value;
            && Timeless(j.log) == RaceAccount(plan, name, events)
            && Told(j, Report(plan, After(plan, events).returned.value, After(plan, events).causes))
  {
    KeepsRacing(plan, name, elapsed, moves);
  }

  // What such an account comes to

  function CallsIn(log: seq<Record>): seq<Record> {
    if log == [] then []
    else
      var last := log[|log| - 1];
      CallsIn(log[..|log| - 1]) + if last.Attempt? then [last] else []
  }

  function LaunchesIn(log: seq<Record>): seq<Record> {
    if log == [] then []
    else
      var last := log[|log| - 1];
      LaunchesIn(log[..|log| - 1]) + if last.Failover? || last.Hedge? then [last] else []
  }

  lemma {:induction false} PartsConcat(a: seq<Record>, b: seq<Record>)
    ensures CallsIn(a + b) == CallsIn(a) + CallsIn(b)
    ensures LaunchesIn(a + b) == LaunchesIn(a) + LaunchesIn(b)
  {
    if b == [] {
      assert a + b == a;
    } else {
      var init := b[..|b| - 1];
      assert (a + b)[..|a + b| - 1] == a + init;
      PartsConcat(a, init);
    }
  }

  function LandedAll(p: Plan, done: seq<nat>): seq<Record> {
    seq(|done|, i requires 0 <= i < |done| => Landed(p, done[i]))
  }

  /** How the n-th launch announces itself: the first not at all. */
  function Announcement(p: Plan, n: nat, cause: Cause): seq<Record> {
    match cause
    case First => []
    case Hedged(overtaken) => [Hedge(Id(p, overtaken), Id(p, n))]
    case FailedOver(from) => [Failover(Id(p, from))]
  }

  function Announced(p: Plan, causes: seq<Cause>): seq<Record> {
    if causes == [] then []
    else
      var n := |causes| - 1;
      Announced(p, causes[..n]) + Announcement(p, n, causes[n])
  }

  lemma RecordParts(p: Plan, s: State, e: Event)
    requires Enabled(p, s, e)
    ensures CallsIn(RaceRecords(p, s, e, NoTime)) == if e.Complete? then [Landed(p, e.index)] else []
    ensures LaunchesIn(RaceRecords(p, s, e, NoTime)) ==
            if e.Timer? then [Hedge(Id(p, s.next - 1), Id(p, s.next))]
            else if e.Complete? && p.outcome(e.index).FailsRetryably() && s.next < p.Limit()
            then [Failover(Id(p, e.index))]
            else []
  {
    if e.Complete? {
      var a := Landed(p, e.index);
      PartsConcat([a], [Failover(Id(p, e.index))]);
      assert [a][..0] == [];
    }
  }

  lemma AnnouncedPush(p: Plan, causes: seq<Cause>, cause: Cause)
    ensures Announced(p, causes + [cause]) == Announced(p, causes) + Announcement(p, |causes|, cause)
  {
    assert (causes + [cause])[..|causes|] == causes;
  }

  lemma StepDone(p: Plan, s: State, e: Event)
    requires Enabled(p, s, e)
    ensures Step(p, s, e).done == s.done + if e.Complete? then [e.index] else []
  {
  }

  lemma StepParts(p: Plan, s: State, e: Event)
    requires Inv(p, s) && Enabled(p, s, e)
    ensures Announced(p, Step(p, s, e).causes) == Announced(p, s.causes) + LaunchesIn(RaceRecords(p, s, e, NoTime))
  {
    RecordParts(p, s, e);
    StepCauses(p, s, e);
    assert |s.causes| == s.next;
    hide Inv, Step, RaceRecords, LaunchesIn, Announced;
    if e.Timer? {
      AnnouncedPush(p, s.causes, Hedged(s.next - 1));
    } else if e.Complete? && p.outcome(e.index).FailsRetryably() && s.next < p.Limit() {
      AnnouncedPush(p, s.causes, FailedOver(e.index));
    } else {
      assert Step(p, s, e).causes == s.causes;
    }
  }

  lemma LandedPush(p: Plan, done: seq<nat>, i: nat)
    ensures LandedAll(p, done + [i]) == LandedAll(p, done) + [Landed(p, i)]
    ensures LandedAll(p, done + []) == LandedAll(p, done) + []
  {
  }

  lemma StoryEnds(p: Plan, events: seq<Event>)
    requires Legal(p, events) && events != []
    ensures var sofar, e := events[..|events| - 1], events[|events| - 1];
            && Legal(p, sofar) && Enabled(p, After(p, sofar), e) && After(p, events) == Step(p, After(p, sofar), e)
            && Story(p, events) == Story(p, sofar) + RaceRecords(p, After(p, sofar), e, NoTime)
  {
    hide Step, RaceRecords;
  }

  lemma {:induction false} StoryParts(p: Plan, events: seq<Event>)
    requires Legal(p, events)
    ensures CallsIn(Story(p, events)) == LandedAll(p, After(p, events).done)
    ensures LaunchesIn(Story(p, events)) == Announced(p, After(p, events).causes)
  {
    if events == [] {
      StartIsSilent(p);
    } else {
      hide Inv, Step, Run, Legal, After, Story, RaceRecords, CallsIn, LaunchesIn, Announced, LandedAll;
      var sofar, e := events[..|events| - 1], events[|events| - 1];
      StoryEnds(p, events);
      var s := After(p, sofar);
      StoryParts(p, sofar);
      LandedPush(p, s.done, if e.Complete? then e.index else 0);
      Reachable(p, sofar);
      StepParts(p, s, e);
      StepDone(p, s, e);
      RecordParts(p, s, e);
      PartsConcat(Story(p, sofar), RaceRecords(p, s, e, NoTime));
    }
  }

  lemma StartIsSilent(p: Plan)
    ensures Start(p).done == [] && Announced(p, Start(p).causes) == []
  {
    if p.Limit() > 0 { assert Start(p).causes == [First] && [First][..0] == []; }
  }

  lemma {:induction false} DropsAreCalls(p: Plan, armed: set<nat>, n: nat)
    ensures CallsIn(Drops(p, armed, n, NoTime)) == Drops(p, armed, n, NoTime)
    ensures LaunchesIn(Drops(p, armed, n, NoTime)) == []
  {
    if n > 0 {
      var sofar := Drops(p, armed, n - 1, NoTime);
      DropsAreCalls(p, armed, n - 1);
      if n - 1 in armed {
        var r := Attempt(Id(p, n - 1), Dropped(0));
        PartsConcat(sofar, [r]);
        assert [r][..0] == [];
      } else {
        assert sofar + [] == sofar;
      }
    }
  }

  /** The attempts in the account are the calls that completed, in the order they did and
      each with its outcome, then one abandonment for each call begun and not completed;
      the failovers and hedges are the causes of the launches, in launch order; a hedge
      win is told exactly when a hedge won; and the request comes last. */
  lemma RaceAccountTells(p: Plan, name: string, events: seq<Event>)
    requires Legal(p, events) && After(p, events).returned.Some?
    ensures var s, account := After(p, events), RaceAccount(p, name, events);
            var raced := s.returned.value;
            && CallsIn(account) == LandedAll(p, s.done) + Drops(p, ArmedIn(s), s.next, NoTime)
            && LaunchesIn(account) == Announced(p, s.causes)
            && (forall i :: i in ArmedIn(s) <==> i in s.begun && i !in s.done)
            && account[|account| - 1] == Request(name, raced.result.Won?, raced.started, 0)
            && forall r :: r in account && r.HedgeWin? <==> r in WinRecords(p, raced)
  {
    var s := After(p, events);
    Reachable(p, events);
    assert Launches(p, s);
    hide Inv;
    var raced := s.returned.value;
    var story, drops, win := Story(p, events), Drops(p, ArmedIn(s), s.next, NoTime), WinRecords(p, raced);
    var last := [Request(name, raced.result.Won?, raced.started, 0)];
    StoryParts(p, events);
    DropsAreCalls(p, ArmedIn(s), s.next);
    PartsConcat(story + drops + win, last);
    PartsConcat(story + drops, win);
    PartsConcat(story, drops);
    NoWinsYet(p, events);
    NoWinsDropped(p, ArmedIn(s), s.next);
    SilentEnd(p, raced, last[0]);
    hide CallsIn, LaunchesIn, Story, Drops;
  }

  lemma SilentEnd(p: Plan, raced: Raced, r: Record)
    requires r.Request?
    ensures CallsIn([r]) == [] && LaunchesIn([r]) == []
    ensures CallsIn(WinRecords(p, raced)) == [] && LaunchesIn(WinRecords(p, raced)) == []
    ensures forall w :: w in WinRecords(p, raced) ==> w.HedgeWin?
  {
    assert [r][..0] == [];
    if WinRecords(p, raced) != [] { assert WinRecords(p, raced)[..0] == []; }
  }

  lemma {:induction false} NoWinsYet(p: Plan, events: seq<Event>)
    requires Legal(p, events)
    ensures forall r :: r in Story(p, events) ==> !r.HedgeWin?
  {
    if events != [] { NoWinsYet(p, events[..|events| - 1]); }
  }

  lemma {:induction false} NoWinsDropped(p: Plan, armed: set<nat>, n: nat)
    ensures forall r :: r in Drops(p, armed, n, NoTime) ==> !r.HedgeWin?
  {
    if n > 0 { NoWinsDropped(p, armed, n - 1); }
  }

  // With a quiet timer

  /** What a quiet race has told: one call after another, each but the newest failed over from. */
  function QuietStory(p: Plan, s: State): seq<Record> {
    if s.next == 0 then []
    else FailingOver(p, s.next - 1) + if s.returned.Some? then [Landed(p, s.next - 1)] else []
  }

  lemma QuietRecords(p: Plan, s: State, e: Event)
    requires InStep(p, s) && Enabled(p, s, e) && !e.Timer?
    ensures QuietStory(p, Step(p, s, e)) == QuietStory(p, s) + RaceRecords(p, s, e, NoTime)
  {
    if e.Complete? {
      assert e.index == s.next - 1;
      assert s.inflight - {e.index} == map[];
      assert s.next in (s.inflight - {e.index})[s.next := FailedOver(e.index)];
      if p.outcome(e.index).FailsRetryably() && s.next < p.Limit() { OneMore(p, s.next - 1); }
    }
  }

  lemma {:induction false} QuietStories(p: Plan, events: seq<Event>)
    requires Legal(p, events) && Quiet(events)
    ensures Story(p, events) == QuietStory(p, After(p, events))
  {
    if events == [] {
      assert 0 in IDLE.inflight[0 := First];
    } else {
      var sofar := events[..|events| - 1];
      QuietStories(p, sofar);
      QuietRun(p, sofar);
      QuietRecords(p, After(p, sofar), events[|events| - 1]);
    }
  }

  lemma {:induction false} NothingToDrop(p: Plan, n: nat)
    ensures Drops(p, {}, n, NoTime) == []
  {
    if n > 0 { NothingToDrop(p, n - 1); }
  }

  lemma QuietAccount(p: Plan, name: string, events: seq<Event>)
    requires Legal(p, events) && Quiet(events) && After(p, events).returned.Some?
    ensures RaceAccount(p, name, events) == WalkAccount(p, name)
  {
    hide Walked, Story, Run, FailingOver;
    var s := After(p, events);
    QuietStories(p, events);
    QuietRun(p, events);
    QuietEnds(p, events);
    NothingToDrop(p, s.next);
    if s.next > 0 { assert s.causes[s.next - 1] == OneByOne(s.next)[s.next - 1]; }
  }

  lemma QuietEnds(p: Plan, events: seq<Event>)
    requires Legal(p, events) && Quiet(events) && After(p, events).returned.Some?
    ensures After(p, events).next == Tries(p) && ArmedIn(After(p, events)) == {}
  {
    QuietRun(p, events);
    QuietRaceIsTheWalk(p, events);
    var s := After(p, events);
    assert |Report(p, s.returned.value, s.causes).tried| == s.next;
    assert |Walked(p).tried| == Tries(p);
  }

  /** To the observer a hedged request whose timer stays quiet cannot be told from a
      sequential one but by the clock: the same records in the same order. */
  lemma QuietJobsAgree(plan: Plan, name: string, elapsed: nat, raced: seq<Move>, walked: seq<Move>)
    requires Quiet(EventsOf(raced))
    requires Played(Open(plan, name, Hedging, elapsed), raced).Some?
    requires Played(Open(plan, name, Hedging, elapsed), raced).value.phase.Ended?
    requires Played(Open(plan, name, Sequential, elapsed), walked).Some?
    requires Played(Open(plan, name, Sequential, elapsed), walked).value.phase.Ended?
    ensures Timeless(Played(Open(plan, name, Hedging, elapsed), raced).value.log)
         == Timeless(Played(Open(plan, name, Sequential, elapsed), walked).value.log)
         == WalkAccount(plan, name)
    ensures Told(Played(Open(plan, name, Hedging, elapsed), raced).value, Walked(plan))
    ensures Told(Played(Open(plan, name, Sequential, elapsed), walked).value, Walked(plan))
  {
    RaceJobsRace(plan, name, elapsed, raced);
    QuietRaceIsTheWalk(plan, EventsOf(raced));
    QuietAccount(plan, name, EventsOf(raced));
    WalkJobsWalk(plan, name, Sequential, elapsed, walked);
  }
}
