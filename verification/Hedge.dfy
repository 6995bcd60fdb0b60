/**
 * The hedged race (src/proxy/hedge.rs).
 *
 * `Race` is the loop of the source.  Which call completes next, and whether the
 * hedge timer beats it, is left open; `Step` is the same loop as a machine over
 * events, so that a claim about every legal event sequence is a claim about
 * every schedule.  A launched call is "begun" once it has been polled: a launched
 * call can be dropped before that, and then it never reaches its upstream.
 */
module Hedge {
  import opened Upstreams

  datatype Cause = First | Hedged(overtaken: nat) | FailedOver(from: nat)

  datatype Failure = NoUpstream | Call(error: CallError)

  datatype Verdict = Won(index: nat, cause: Cause, reply: Reply) | Lost(failure: Failure)

  datatype Raced = Raced(result: Verdict, started: nat, hedgesStarted: nat, hedgesWon: nat)

  /** One request's chain, its cap, and what each call would come back with. */
  datatype Plan = Plan(chain: seq<Upstream>, maxAttempt: nat, outcome: nat -> CallResult)
  {
    function Limit(): (n: nat)
      ensures n <= |chain| && n <= maxAttempt && (n == |chain| || n == maxAttempt)
    {
      Min(|chain|, maxAttempt)
    }
  }

  /** The variables of the loop, then three histories: every cause in launch order,
      the calls polled at least once, and the calls in the order they completed. */
  datatype State = State(
    next: nat,
    inflight: map<nat, Cause>,
    lastFailure: Option<CallError>,
    hedgesStarted: nat,
    returned: Option<Raced>,
    causes: seq<Cause>,
    begun: set<nat>,
    done: seq<nat>)

  datatype Event = Begin(index: nat) | Complete(index: nat) | Timer

  const IDLE := State(0, map[], None, 0, None, [], {}, [])

  function Launch(s: State, cause: Cause): State {
    s.(next := s.next + 1, inflight := s.inflight[s.next := cause], causes := s.causes + [cause])
  }

  function Land(s: State, i: nat): State {
    s.(inflight := s.inflight - {i}, done := s.done + [i])
  }

  function Exhausted(lastFailure: Option<CallError>): Failure {
    if lastFailure.None? then NoUpstream else Call(lastFailure.value)
  }

  /** The check at the head of the loop: nothing in flight and nothing left to start. */
  function AtLoopHead(p: Plan, s: State): State {
    if s.inflight == map[] && s.next >= p.Limit() then
      s.(returned := Some(Raced(Lost(Exhausted(s.lastFailure)), s.next, s.hedgesStarted, 0)))
    else
      s
  }

  function Start(p: Plan): State {
    AtLoopHead(p, if p.Limit() > 0 then Launch(IDLE, First) else IDLE)
  }

  predicate Enabled(p: Plan, s: State, e: Event) {
    && s.returned.None?
    && match e
       case Begin(i) => i in s.inflight && i !in s.begun
       case Complete(i) => i in s.inflight && i in s.begun
       case Timer => 0 < s.next < p.Limit()
  }

  function Step(p: Plan, s: State, e: Event): State
    requires Enabled(p, s, e)
  {
    match e
    case Begin(i) => s.(begun := s.begun + {i})
    case Timer => Launch(s.(hedgesStarted := s.hedgesStarted + 1), Hedged(s.next - 1))
    case Complete(i) =>
      var landed := Land(s, i);
      match p.outcome(i)
      case Answered(reply) =>
        var cause := s.inflight[i];
        landed.(returned := Some(Raced(Won(i, cause, reply), s.next, s.hedgesStarted,
                                       if cause.Hedged? then 1 else 0)))
      case Failed(error) =>
        if !error.IsRetryable() then
          landed.(returned := Some(Raced(Lost(Call(error)), s.next, s.hedgesStarted, 0)))
        else
          var failed := landed.(lastFailure := Some(error));
          AtLoopHead(p, if s.next < p.Limit() then Launch(failed, FailedOver(i)) else failed)
  }

  // Runs

  /** The state after a schedule, or None for a schedule that cannot happen. */
  function Run(p: Plan, events: seq<Event>): Option<State> {
    if events == [] then Some(Start(p))
    else
      var before := Run(p, events[..|events| - 1]);
      var e := events[|events| - 1];
      if before.Some? && Enabled(p, before.value, e) then Some(Step(p, before.value, e)) else None
  }

  predicate Legal(p: Plan, events: seq<Event>) {
    Run(p, events).Some?
  }

  function After(p: Plan, events: seq<Event>): State
    requires Legal(p, events)
  {
    Run(p, events).value
  }

  lemma Extend(p: Plan, events: seq<Event>, e: Event)
    requires Legal(p, events) && Enabled(p, After(p, events), e)
    ensures Legal(p, events + [e])
    ensures After(p, events + [e]) == Step(p, After(p, events), e)
  {
    assert (events + [e])[..|events|] == events;
  }

  // What every reachable state satisfies

  function HedgeCount(causes: seq<Cause>): nat {
    if causes == [] then 0
    else HedgeCount(causes[..|causes| - 1]) + (if causes[|causes| - 1].Hedged? then 1 else 0)
  }

  /** Launched are exactly 0..next; each is either in flight or done, and is done once;
      only begun calls can be done. */
  ghost predicate Partition(next: nat, inflight: set<nat>, done: seq<nat>, begun: set<nat>) {
    && (forall i: nat :: i in inflight || i in done <==> i < next)
    && (forall i :: i in inflight ==> i !in done)
    && Distinct(done)
    && (forall i :: i in done ==> i in begun)
    && (forall i :: i in begun ==> i < next)
  }

  ghost predicate Launches(p: Plan, s: State) {
    && s.next <= p.Limit()
    && (p.Limit() > 0 ==> s.next > 0)
    && Partition(s.next, s.inflight.Keys, s.done, s.begun)
  }

  /** One cause per launch. */
  ghost predicate Caused(s: State) {
    && |s.causes| == s.next
    && (forall i :: i in s.inflight ==> i < |s.causes| && s.inflight[i] == s.causes[i])
  }

  /** Index 0 opens the race; a hedge overtakes its neighbour; a failover follows a
      call that failed retryably and was launched earlier. */
  ghost predicate Explained(p: Plan, s: State) {
    forall i :: 0 <= i < |s.causes| ==>
      match s.causes[i]
      case First => i == 0
      case Hedged(overtaken) => i > 0 && overtaken == i - 1
      case FailedOver(from) => i > 0 && from < i && from in s.done && p.outcome(from).FailsRetryably()
  }

  ghost predicate FailedSoFar(p: Plan, done: seq<nat>) {
    forall k :: 0 <= k < |done| ==> p.outcome(done[k]).FailsRetryably()
  }

  function LastError(p: Plan, done: seq<nat>): Option<CallError>
    requires done != [] ==> p.outcome(done[|done| - 1]).Failed?
  {
    if done == [] then None else Some(p.outcome(done[|done| - 1]).error)
  }

  /** Still racing: only retryable failures so far, the newest call still out while
      there is more to start, and something to wait for. */
  ghost predicate Racing(p: Plan, s: State) {
    && FailedSoFar(p, s.done)
    && s.lastFailure == LastError(p, s.done)
    && (s.next < p.Limit() ==> s.next > 0 && s.next - 1 in s.inflight)
    && s.inflight != map[]
  }

  /** What a returned value says about the calls made. */
  ghost predicate Decided(p: Plan, s: State, raced: Raced) {
    && raced.started == s.next
    && raced.hedgesStarted == s.hedgesStarted
    && raced.hedgesWon == (if raced.result.Won? && raced.result.cause.Hedged? then 1 else 0)
    && match raced.result
       case Won(index, cause, reply) =>
         && s.done != []
         && s.done[|s.done| - 1] == index
         && FailedSoFar(p, s.done[..|s.done| - 1])
         && p.outcome(index) == Answered(reply)
         && index < |s.causes|
         && s.causes[index] == cause
       case Lost(NoUpstream) => p.Limit() == 0 && s.done == []
       case Lost(Call(error)) =>
         && s.done != []
         && p.outcome(s.done[|s.done| - 1]) == Failed(error)
         && FailedSoFar(p, s.done[..|s.done| - 1])
         && (error.IsRetryable() ==> s.next == p.Limit() && s.inflight == map[])
  }

  ghost predicate Inv(p: Plan, s: State) {
    && Launches(p, s)
    && Caused(s)
    && Explained(p, s)
    && s.hedgesStarted == HedgeCount(s.causes)
    && (s.returned.None? ==> Racing(p, s))
    && (s.returned.Some? ==> Decided(p, s, s.returned.value))
  }

  lemma FirstLaunch(p: Plan)
    requires p.Limit() > 0
    ensures var s := Launch(IDLE, First);
            && s == State(1, map[0 := First], None, 0, None, [First], {}, [])
            && Launches(p, s) && Caused(s) && Explained(p, s)
  {
    var s := Launch(IDLE, First);
    assert s.inflight.Keys == {0};
  }

  lemma StartHolds(p: Plan)
    ensures Inv(p, Start(p))
  {
    hide Launch, Partition;
    if p.Limit() > 0 {
      hide Launches, Caused, Explained;
      FirstLaunch(p);
      var s := Start(p);
      assert 0 in s.inflight;
      assert HedgeCount([First]) == 0;
    } else {
      NothingToStart(p);
    }
  }

  lemma NothingToStart(p: Plan)
    requires p.Limit() == 0
    ensures var s := Start(p);
            && s == IDLE.(returned := Some(Raced(Lost(NoUpstream), 0, 0, 0)))
            && Launches(p, s) && Caused(s) && Explained(p, s)
  {
  }

  /** A cause that the next launch may have. */
  ghost predicate MayCause(p: Plan, s: State, cause: Cause) {
    match cause
    case First => false
    case Hedged(o) => s.next > 0 && o == s.next - 1
    case FailedOver(from) => from < s.next && from in s.done && p.outcome(from).FailsRetryably()
  }

  lemma LaunchHolds(p: Plan, s: State, cause: Cause)
    requires s.next < p.Limit()
    requires Launches(p, s) && Caused(s) && Explained(p, s) && MayCause(p, s, cause)
    ensures var t := Launch(s, cause);
            Launches(p, t) && Caused(t) && Explained(p, t) && s.next in t.inflight
    ensures HedgeCount(Launch(s, cause).causes) == HedgeCount(s.causes) + (if cause.Hedged? then 1 else 0)
  {
    var t := Launch(s, cause);
    assert t.causes[..|s.causes|] == s.causes;
    assert t.inflight.Keys == s.inflight.Keys + {s.next};
  }

  lemma LandHolds(p: Plan, s: State, i: nat)
    requires Launches(p, s) && Caused(s) && Explained(p, s)
    requires i in s.inflight && i in s.begun
    ensures Launches(p, Land(s, i)) && Caused(Land(s, i)) && Explained(p, Land(s, i))
  {
    assert Land(s, i).inflight.Keys == s.inflight.Keys - {i};
    forall j | 0 <= j < |s.causes|
      ensures s.causes[j].FailedOver? && s.causes[j].from in s.done ==> s.causes[j].from in Land(s, i).done
    {
    }
  }

  lemma ReturnedHolds(p: Plan, s: State, raced: Raced)
    requires Launches(p, s) && Caused(s) && Explained(p, s)
    ensures var t := s.(returned := Some(raced)); Launches(p, t) && Caused(t) && Explained(p, t)
  {
  }

  lemma FinalDecides(p: Plan, s: State, i: nat)
    requires Inv(p, s) && Enabled(p, s, Complete(i)) && !p.outcome(i).FailsRetryably()
    ensures var t := Step(p, s, Complete(i));
            && t.returned.Some? && t == Land(s, i).(returned := t.returned)
            && Decided(p, t, t.returned.value)
  {
    hide Launches, Explained, HedgeCount;
    assert Land(s, i).done[..|s.done|] == s.done;
  }

  lemma FinalHolds(p: Plan, s: State, i: nat)
    requires Inv(p, s) && Enabled(p, s, Complete(i)) && !p.outcome(i).FailsRetryably()
    ensures Inv(p, Step(p, s, Complete(i)))
  {
    hide Launches, Caused, Explained, HedgeCount, Decided, Racing, Step;
    LandHolds(p, s, i);
    FinalDecides(p, s, i);
    ReturnedHolds(p, Land(s, i), Step(p, s, Complete(i)).returned.value);
  }

  lemma RetryHolds(p: Plan, s: State, i: nat)
    requires Inv(p, s) && Enabled(p, s, Complete(i)) && p.outcome(i).FailsRetryably()
    ensures Inv(p, Step(p, s, Complete(i)))
  {
    LandHolds(p, s, i);
    var failed := Land(s, i).(lastFailure := Some(p.outcome(i).error));
    assert Launches(p, failed) && Caused(failed) && Explained(p, failed);
    RetryLaunches(p, failed, i);
  }

  lemma RetryLaunches(p: Plan, failed: State, i: nat)
    requires Launches(p, failed) && Caused(failed) && Explained(p, failed) && failed.returned.None?
    requires failed.hedgesStarted == HedgeCount(failed.causes)
    requires FailedSoFar(p, failed.done) && failed.done != [] && failed.done[|failed.done| - 1] == i
    requires failed.lastFailure == LastError(p, failed.done)
    ensures var t := AtLoopHead(p, if failed.next < p.Limit() then Launch(failed, FailedOver(i)) else failed);
            Inv(p, t)
  {
    if failed.next < p.Limit() {
      assert i in failed.done;
      LaunchHolds(p, failed, FailedOver(i));
    }
  }

  lemma CountedHolds(p: Plan, s: State, n: nat)
    requires Launches(p, s) && Caused(s) && Explained(p, s)
    ensures var t := s.(hedgesStarted := n); Launches(p, t) && Caused(t) && Explained(p, t)
  {
  }

  lemma TimerHolds(p: Plan, s: State)
    requires Inv(p, s) && Enabled(p, s, Timer)
    ensures Inv(p, Step(p, s, Timer))
  {
    hide Launches, Caused, Explained, HedgeCount;
    CountedHolds(p, s, s.hedgesStarted + 1);
    LaunchHolds(p, s.(hedgesStarted := s.hedgesStarted + 1), Hedged(s.next - 1));
    assert Racing(p, s);
  }

  lemma StepHolds(p: Plan, s: State, e: Event)
    requires Inv(p, s) && Enabled(p, s, e)
    ensures Inv(p, Step(p, s, e))
  {
    match e
    case Begin(i) =>
    case Timer => TimerHolds(p, s);
    case Complete(i) =>
      if p.outcome(i).FailsRetryably() { RetryHolds(p, s, i); } else { FinalHolds(p, s, i); }
  }

  /** Every state of every schedule is a good one. */
  lemma {:induction false} Reachable(p: Plan, events: seq<Event>)
    requires Legal(p, events)
    ensures Inv(p, After(p, events))
  {
    if events == [] {
      StartHolds(p);
    } else {
      var sofar := events[..|events| - 1];
      Reachable(p, sofar);
      StepHolds(p, After(p, sofar), events[|events| - 1]);
    }
  }

  // What each outcome leads to

  /** A completed call ends the race unless its outcome passes the request on; and then it
      ends it only when it was the last in flight with nothing left to start.  While there
      is more to start, the next upstream is started because of this very call. */
  lemma CompletionDecides(p: Plan, events: seq<Event>, i: nat)
    requires Legal(p, events) && Enabled(p, After(p, events), Complete(i))
    ensures var s, t := After(p, events), Step(p, After(p, events), Complete(i));
            && t.done == s.done + [i]
            && (!PassedOn(p.outcome(i)) ==> t.returned.Some? && t.returned.value.started == s.next)
            && (PassedOn(p.outcome(i)) && s.next < p.Limit() ==>
                  t.returned.None? && t.next == s.next + 1 && t.inflight.Keys == s.inflight.Keys - {i} + {s.next}
                  && t.inflight[s.next] == FailedOver(i))
            && (PassedOn(p.outcome(i)) && s.next >= p.Limit() ==>
                  t.next == s.next && (t.returned.Some? <==> s.inflight.Keys == {i}))
            && (t.returned.Some? ==>
                  t.returned.value.result ==
                  if p.outcome(i).Answered? then Won(i, s.inflight[i], p.outcome(i).reply)
                  else Lost(Call(p.outcome(i).error)))
  {
    var s := After(p, events);
    Reachable(p, events);
    RetryableMeans(p.outcome(i));
    assert s.next !in s.inflight.Keys;
    hide Inv;
    var rest := s.inflight - {i};
    assert rest.Keys == s.inflight.Keys - {i};
    assert rest == map[] <==> rest.Keys == {};
    assert s.inflight.Keys - {i} == {} <==> s.inflight.Keys == {i};
    assert rest[s.next := FailedOver(i)].Keys == rest.Keys + {s.next};
    assert s.next in rest[s.next := FailedOver(i)];
  }

  /** The calls that failovers cite, in launch order. */
  function Cited(causes: seq<Cause>): seq<nat> {
    if causes == [] then []
    else
      var last := causes[|causes| - 1];
      Cited(causes[..|causes| - 1]) + if last.FailedOver? then [last.from] else []
  }

  lemma CitedPush(causes: seq<Cause>, cause: Cause)
    ensures Cited(causes + [cause]) == Cited(causes) + if cause.FailedOver? then [cause.from] else []
  {
    assert (causes + [cause])[..|causes|] == causes;
  }

  lemma StepCites(p: Plan, s: State, e: Event)
    requires Enabled(p, s, e)
    ensures var t := Step(p, s, e);
            && t.next >= s.next
            && t.done == s.done + (if e.Complete? then [e.index] else [])
            && Cited(t.causes) == Cited(s.causes) +
                 if e.Complete? && p.outcome(e.index).FailsRetryably() && s.next < p.Limit() then [e.index] else []
  {
    if e.Timer? { CitedPush(s.causes, Hedged(s.next - 1)); }
    if e.Complete? { CitedPush(s.causes, FailedOver(e.index)); }
  }

  lemma FinalReturns(p: Plan, s: State, i: nat)
    requires Enabled(p, s, Complete(i)) && !p.outcome(i).FailsRetryably()
    ensures Step(p, s, Complete(i)).returned.Some?
  {
  }

  /** Failovers follow completions: the n-th failover cites the n-th call to complete, and
      as long as there is more to start no failed call goes without one. */
  lemma {:induction false} FailoversFollowCompletions(p: Plan, events: seq<Event>)
    requires Legal(p, events)
    ensures var s := After(p, events);
            && Cited(s.causes) <= s.done
            && (s.returned.None? && s.next < p.Limit() ==> Cited(s.causes) == s.done)
  {
    if events == [] {
      assert [First][..0] == [];
    } else {
      hide Step, Start;
      var sofar, e := events[..|events| - 1], events[|events| - 1];
      FailoversFollowCompletions(p, sofar);
      StepCites(p, After(p, sofar), e);
      if e.Complete? && !p.outcome(e.index).FailsRetryably() { FinalReturns(p, After(p, sofar), e.index); }
    }
  }

  // What the result means, over every schedule

  lemma NothingDone(p: Plan, s: State)
    requires Inv(p, s)
    ensures p.Limit() == 0 ==> s.done == []
  {
    if s.done != [] { assert s.done[0] in s.done; }
  }

  lemma AllFailed(p: Plan, s: State)
    requires Inv(p, s) && s.returned.Some? && s.returned.value.result.Lost?
    requires s.returned.value.result.failure.Call? && s.returned.value.result.failure.error.IsRetryable()
    ensures forall i: nat :: i < p.Limit() ==> i in s.done && p.outcome(i).FailsRetryably()
  {
    hide Caused, Explained, HedgeCount, Racing;
    forall i: nat | i < p.Limit() ensures i in s.done && p.outcome(i).FailsRetryably() {
      assert i in s.done;
      var k :| 0 <= k < |s.done| && s.done[k] == i;
      assert k < |s.done| - 1 ==> s.done[..|s.done| - 1][k] == i;
    }
  }

  /** The race never gives up early.  Losing on a retryable failure means that every
      upstream up to the limit was tried and failed retryably, and the last of them to
      complete is reported; an answer or a final failure is the first to complete;
      there was no upstream exactly when the limit is zero. */
  lemma NeverGivesUpEarly(p: Plan, events: seq<Event>)
    requires Legal(p, events) && After(p, events).returned.Some?
    ensures var s := After(p, events);
            var raced := s.returned.value;
            && (raced.result == Lost(NoUpstream) <==> p.Limit() == 0)
            && (s.done != [] ==> FailedSoFar(p, s.done[..|s.done| - 1]))
            && (raced.result.Won? <==> s.done != [] && p.outcome(s.done[|s.done| - 1]).Answered?)
            && (raced.result.Won? ==>
                  var last := s.done[|s.done| - 1];
                  raced.result.index == last && p.outcome(last).reply == raced.result.reply)
            && (raced.result.Lost? && raced.result.failure.Call? ==>
                  var error := raced.result.failure.error;
                  && s.done != [] && p.outcome(s.done[|s.done| - 1]) == Failed(error)
                  && (error.IsRetryable() ==>
                        && raced.started == p.Limit()
                        && forall i: nat :: i < p.Limit() ==> i in s.done && p.outcome(i).FailsRetryably()))
  {
    Reachable(p, events);
    var s := After(p, events);
    NothingDone(p, s);
    var result := s.returned.value.result;
    if result.Lost? && result.failure.Call? && result.failure.error.IsRetryable() { AllFailed(p, s); }
    hide Run, Launches, Caused, Explained, HedgeCount, Racing, Partition;
  }

  /** A hedge never overtakes an upstream that has already completed: while there is
      more to start, the newest call is still in flight. */
  lemma HedgesOvertakeTheWaiting(p: Plan, events: seq<Event>)
    requires Legal(p, events) && Enabled(p, After(p, events), Timer)
    ensures var s := After(p, events);
            && s.next - 1 in s.inflight && s.next - 1 !in s.done
            && Step(p, s, Timer).inflight[s.next] == Hedged(s.next - 1)
  {
    Reachable(p, events);
  }

  /** The passes of the loop: everything but a first poll. */
  function Passes(events: seq<Event>): nat {
    if events == [] then 0
    else Passes(events[..|events| - 1]) + (if events[|events| - 1].Begin? then 0 else 1)
  }

  function Left(p: Plan, s: State): int {
    2 * (p.Limit() - s.next) + |s.inflight|
  }

  lemma LandSize(p: Plan, s: State, i: nat)
    requires i in s.inflight
    ensures Left(p, Land(s, i)) == Left(p, s) - 1
  {
    assert Land(s, i).inflight.Keys == s.inflight.Keys - {i};
  }

  lemma LaunchSize(p: Plan, s: State, cause: Cause)
    requires forall i :: i in s.inflight ==> i < s.next
    ensures Left(p, Launch(s, cause)) == Left(p, s) - 1 && Launch(s, cause).begun == s.begun
  {
    assert Launch(s, cause).inflight.Keys == s.inflight.Keys + {s.next};
  }

  lemma SameLeft(p: Plan, s: State, t: State)
    requires s.next == t.next && s.inflight == t.inflight
    ensures Left(p, s) == Left(p, t)
  {
  }

  lemma CompletionProgresses(p: Plan, s: State, i: nat)
    requires Enabled(p, s, Complete(i)) && forall j :: j in s.inflight ==> j < s.next
    ensures Left(p, Step(p, s, Complete(i))) <= Left(p, s) - 1
    ensures Step(p, s, Complete(i)).begun == s.begun
  {
    hide Left, Launch;
    LandSize(p, s, i);
    var landed, t := Land(s, i), Step(p, s, Complete(i));
    if p.outcome(i).FailsRetryably() {
      var failed := landed.(lastFailure := Some(p.outcome(i).error));
      var started := if s.next < p.Limit() then Launch(failed, FailedOver(i)) else failed;
      LaunchSize(p, failed, FailedOver(i));
      SameLeft(p, landed, failed);
      SameLeft(p, started, t);
    } else {
      SameLeft(p, landed, t);
    }
  }

  lemma InFlightIsLaunched(p: Plan, s: State)
    requires Inv(p, s)
    ensures forall i :: i in s.inflight ==> i < s.next
  {
  }

  lemma PassesProgress(p: Plan, s: State, e: Event)
    requires Inv(p, s) && Enabled(p, s, e)
    ensures Left(p, Step(p, s, e)) <= Left(p, s) - (if e.Begin? then 0 else 1)
    ensures |Step(p, s, e).begun| == |s.begun| + (if e.Begin? then 1 else 0)
  {
    hide Inv, Launch, Left, Land, AtLoopHead;
    InFlightIsLaunched(p, s);
    match e
    case Complete(i) => CompletionProgresses(p, s, i);
    case Timer =>
      var counted := s.(hedgesStarted := s.hedgesStarted + 1);
      SameLeft(p, s, counted);
      LaunchSize(p, counted, Hedged(s.next - 1));
    case Begin(_) => SameLeft(p, s, Step(p, s, e));
  }

  /** What an event does to the launches: every pass that leaves something to start begins
      exactly one call, unless it ends the race; a first poll begins none. */
  lemma EveryPassLaunchesOne(p: Plan, s: State, e: Event)
    requires Inv(p, s) && Enabled(p, s, e)
    ensures 0 < s.next <= p.Limit() && s.inflight != map[]
    ensures forall i :: i in s.inflight ==> i < s.next
    ensures var t := Step(p, s, e);
            && (t.next == s.next || (t.next == s.next + 1 <= p.Limit() && !e.Begin?))
            && (e.Begin? ==> t.returned.None?)
            && (!e.Begin? && s.next < p.Limit() && t.returned.None? ==>
                  t.next == s.next + 1 && t.inflight.Keys - s.inflight.Keys == {s.next})
  {
    assert Racing(p, s) && Launches(p, s);
    var i :| i in s.inflight;
    assert i < s.next;
    assert s.next !in s.inflight;
  }

  lemma BelowIsSmall(s: set<nat>, n: nat)
    requires forall i :: i in s ==> i < n
    ensures |s| <= n
  {
    if n == 0 {
      assert s == {};
    } else {
      BelowIsSmall(s - {n - 1}, n - 1);
    }
  }

  /** Until it has returned, the race has something to wait for besides its timer: any call
      in flight may be polled first and then complete, in any order; and as long as there
      is more to start, the timer may fire. */
  lemma AlwaysSomethingToDo(p: Plan, events: seq<Event>)
    requires Legal(p, events) && After(p, events).returned.None?
    ensures var s := After(p, events);
            && 0 < s.next <= p.Limit() && s.inflight != map[]
            && (exists e :: Enabled(p, s, e) && !e.Timer?)
            && (forall i :: i in s.inflight ==> Enabled(p, s, if i in s.begun then Complete(i) else Begin(i)))
            && (s.next < p.Limit() ==> Enabled(p, s, Timer))
  {
    Reachable(p, events);
    var s := After(p, events);
    assert Racing(p, s);
    var i :| i in s.inflight;
    assert i < s.next;
    var e := if i in s.begun then Complete(i) else Begin(i);
    assert Enabled(p, s, e) && !e.Timer?;
  }

  lemma Progress(p: Plan, events: seq<Event>, e: Event)
    requires Legal(p, events) && Enabled(p, After(p, events), e)
    ensures Legal(p, events + [e]) && After(p, events + [e]) == Step(p, After(p, events), e)
    ensures var s, t := After(p, events), After(p, events + [e]);
            && Left(p, t) <= Left(p, s) - (if e.Begin? then 0 else 1)
            && |t.begun| == |s.begun| + (if e.Begin? then 1 else 0)
  {
    Reachable(p, events);
    Extend(p, events, e);
    PassesProgress(p, After(p, events), e);
  }

  lemma BegunIsSmall(p: Plan, s: State)
    requires Inv(p, s)
    ensures |s.begun| <= p.Limit() && Left(p, s) >= 0
  {
    BelowIsSmall(s.begun, p.Limit());
  }

  /** The race ends: at most 2*limit - 1 passes of the loop and limit first polls. */
  lemma {:induction false} RaceEnds(p: Plan, events: seq<Event>)
    requires Legal(p, events) && p.Limit() > 0
    ensures Passes(events) + Left(p, After(p, events)) <= 2 * p.Limit() - 1
    ensures |events| == Passes(events) + |After(p, events).begun|
    ensures |events| <= 3 * p.Limit() - 1
  {
    hide Inv, Step, Enabled;
    Reachable(p, events);
    BegunIsSmall(p, After(p, events));
    if events != [] {
      var sofar := events[..|events| - 1];
      assert sofar + [events[|events| - 1]] == events;
      RaceEnds(p, sofar);
      Progress(p, sofar, events[|events| - 1]);
    }
  }

  lemma NothingYet(p: Plan)
    ensures Legal(p, []) && After(p, []) == Start(p)
  {
  }

  lemma PolledOrNot(inflight: map<nat, Cause>, polled: set<nat>)
    ensures inflight != map[] ==> inflight.Keys - polled != {} || inflight.Keys * polled != {}
  {
    if inflight != map[] {
      var i :| i in inflight;
      assert i in inflight.Keys - polled || i in inflight.Keys * polled;
    }
  }

  /** What a caller can hold a returned value to, whatever the schedule was. */
  ghost predicate Honest(p: Plan, raced: Raced) {
    && raced.started <= p.Limit()
    && raced.hedgesWon == (if raced.result.Won? && raced.result.cause.Hedged? then 1 else 0)
    && raced.hedgesWon <= raced.hedgesStarted
    && match raced.result
       case Won(i, _, reply) => i < raced.started && p.outcome(i) == Answered(reply)
       case Lost(NoUpstream) => p.Limit() == 0
       case Lost(Call(error)) =>
         && (exists i: nat :: i < raced.started && p.outcome(i) == Failed(error))
         && (error.IsRetryable() ==> raced.started == p.Limit()
                                     && forall i: nat :: i < p.Limit() ==> p.outcome(i).FailsRetryably())
  }

  lemma {:induction false} SomeHedge(causes: seq<Cause>, i: nat)
    requires i < |causes| && causes[i].Hedged?
    ensures HedgeCount(causes) > 0
  {
    if i < |causes| - 1 {
      SomeHedge(causes[..|causes| - 1], i);
    }
  }

  lemma ReturnsAreHonest(p: Plan, events: seq<Event>)
    requires Legal(p, events)
    ensures After(p, events).returned.Some? ==> Honest(p, After(p, events).returned.value)
  {
    hide Explained, HedgeCount, Racing, Step;
    if After(p, events).returned.Some? {
      Reachable(p, events);
      NeverGivesUpEarly(p, events);
      var s := After(p, events);
      var raced := s.returned.value;
      if s.done != [] { assert s.done[|s.done| - 1] in s.done; }
      if raced.hedgesWon > 0 { SomeHedge(s.causes, raced.result.index); }
    }
  }

  /** The loop of the source.  `events` is the schedule that the nondeterministic picks
      spelled out; the outcome is the one the machine reaches on it. */
  method Race(p: Plan) returns (raced: Raced, ghost events: seq<Event>)
    ensures Legal(p, events)
    ensures After(p, events).returned == Some(raced)
    ensures Honest(p, raced)
  {
    hide Legal, After, Run, Inv, Left, Passes, Honest;
    NothingYet(p);
    var limit := p.Limit();
    var inflight: map<nat, Cause> := map[];
    var polled: set<nat> := {};
    var next := 0;
    var hedgesStarted := 0;
    var lastFailure: Option<CallError> := None;
    ghost var causes: seq<Cause> := [];
    ghost var done: seq<nat> := [];
    events := [];
    if limit > 0 {
      inflight := inflight[0 := First];
      causes := [First];
      next := 1;
    }
    while true
      invariant limit == p.Limit() && |causes| == next
      invariant Legal(p, events)
      invariant After(p, events) ==
        AtLoopHead(p, State(next, inflight, lastFailure, hedgesStarted, None, causes, polled, done))
      decreases 3 * limit - |events|
    {
      var more := next < limit;
      ReturnsAreHonest(p, events);
      if inflight == map[] && !more {
        return Raced(Lost(Exhausted(lastFailure)), next, hedgesStarted, 0), events;
      }
      AlwaysSomethingToDo(p, events);
      var hedgeAfter := p.chain[next - 1].hedgeAfter;
      PolledOrNot(inflight, polled);
      var unpolled := inflight.Keys - polled;
      var e: Event;
      if {
        case more => e := Timer;
        case unpolled != {} => var i :| i in unpolled; e := Begin(i);
        case inflight.Keys * polled != {} => var i :| i in inflight.Keys * polled; e := Complete(i);
      }
      Extend(p, events, e);
      events := events + [e];
      RaceEnds(p, events);
      ReturnsAreHonest(p, events);
      match e
      case Begin(i) =>
        polled := polled + {i};
      case Timer =>
        inflight, causes := inflight[next := Hedged(next - 1)], causes + [Hedged(next - 1)];
        next := next + 1;
        hedgesStarted := hedgesStarted + 1;
      case Complete(i) =>
        var cause := inflight[i];
        inflight, done := inflight - {i}, done + [i];
        match p.outcome(i)
        case Answered(reply) =>
          var won := if cause.Hedged? then 1 else 0;
          return Raced(Won(i, cause, reply), next, hedgesStarted, won), events;
        case Failed(error) =>
          if !error.IsRetryable() {
            return Raced(Lost(Call(error)), next, hedgesStarted, 0), events;
          }
          lastFailure := Some(error);
          if more {
            inflight, causes := inflight[next := FailedOver(i)], causes + [FailedOver(i)];
            next := next + 1;
          }
    }
  }
}
