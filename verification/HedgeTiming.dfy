/**
 * The race against an idealised clock (src/proxy/hedge.rs:61-114).
 *
 * A pass of the loop starts a fresh timer for the newest call's `hedge_after`, so
 * waiting past it is impossible while there is more to start; and no call outlasts
 * the call timeout.  From these two local facts follow the two bounds on a request:
 * when each upstream is started, and when the race is over.
 */
module HedgeTiming {
  import opened Upstreams
  import opened Hedge

  /** `pass` is when the loop last came round to its select. */
  datatype Timed = Timed(state: State, now: nat, pass: nat, launchedAt: seq<nat>)

  datatype Stamped = Stamped(event: Event, at: nat)

  /** What waiting for `t` requires of the clock. */
  predicate MayWaitUntil(p: Plan, timeout: nat, c: Timed, t: nat) {
    var s := c.state;
    && c.now <= t
    && (0 < s.next < p.Limit() && s.next <= |p.chain| ==> t <= c.pass + p.chain[s.next - 1].hedgeAfter)
    && (forall i :: i in s.inflight && i < |c.launchedAt| ==> t <= c.launchedAt[i] + timeout)
  }

  predicate Ready(p: Plan, timeout: nat, c: Timed, e: Stamped) {
    && Enabled(p, c.state, e.event)
    && MayWaitUntil(p, timeout, c, e.at)
    && (e.event.Timer? ==> e.at == c.pass + p.chain[c.state.next - 1].hedgeAfter)
  }

  function Tick(p: Plan, timeout: nat, c: Timed, e: Stamped): Timed
    requires Ready(p, timeout, c, e)
  {
    var s := Step(p, c.state, e.event);
    Timed(s, e.at,
          if e.event.Begin? then c.pass else e.at,
          if s.next > c.state.next then c.launchedAt + [e.at] else c.launchedAt)
  }

  function Clocked(p: Plan, timeout: nat, events: seq<Stamped>): Option<Timed> {
    if events == [] then
      Some(Timed(Start(p), 0, 0, if p.Limit() > 0 then [0] else []))
    else
      var before := Clocked(p, timeout, events[..|events| - 1]);
      var e := events[|events| - 1];
      if before.Some? && Ready(p, timeout, before.value, e) then Some(Tick(p, timeout, before.value, e)) else None
  }

  /** The summed `hedge_after` of the upstreams before index `n`. */
  function Patience(p: Plan, n: nat): nat
    requires n <= |p.chain|
  {
    if n == 0 then 0 else Patience(p, n - 1) + p.chain[n - 1].hedgeAfter
  }

  lemma PatienceGrows(p: Plan, m: nat, n: nat)
    requires m <= n <= |p.chain|
    ensures Patience(p, m) <= Patience(p, n)
  {
  }

  ghost predicate OnTime(p: Plan, c: Timed) {
    && |c.launchedAt| == c.state.next <= p.Limit()
    && (forall i :: 0 <= i < c.state.next ==> c.launchedAt[i] <= Patience(p, i))
    && (c.state.returned.None? && 0 < c.state.next < p.Limit() ==> c.pass == c.launchedAt[c.state.next - 1])
  }

  lemma TickOnTime(p: Plan, timeout: nat, c: Timed, e: Stamped)
    requires Inv(p, c.state) && OnTime(p, c) && Ready(p, timeout, c, e)
    ensures OnTime(p, Tick(p, timeout, c, e))
  {
    EveryPassLaunchesOne(p, c.state, e.event);
    OnTimeByLaunches(p, timeout, c, e, Tick(p, timeout, c, e));
  }

  /** The step of the argument, with the race itself out of sight. */
  lemma OnTimeByLaunches(p: Plan, timeout: nat, c: Timed, e: Stamped, d: Timed)
    requires OnTime(p, c) && MayWaitUntil(p, timeout, c, e.at)
    requires c.state.returned.None? && c.state.next > 0
    requires d.state.next == c.state.next || (d.state.next == c.state.next + 1 <= p.Limit() && !e.event.Begin?)
    requires e.event.Begin? ==> d.state.returned.None?
    requires d.state.returned.None? && !e.event.Begin? && c.state.next < p.Limit() ==> d.state.next > c.state.next
    requires d.launchedAt == if d.state.next > c.state.next then c.launchedAt + [e.at] else c.launchedAt
    requires d.pass == if e.event.Begin? then c.pass else e.at
    ensures OnTime(p, d)
  {
    var n := c.state.next;
    if d.state.next > n {
      assert Patience(p, n) == Patience(p, n - 1) + p.chain[n - 1].hedgeAfter;
    }
  }

  lemma {:induction false} AlwaysOnTime(p: Plan, timeout: nat, events: seq<Stamped>)
    requires Clocked(p, timeout, events).Some?
    ensures var c := Clocked(p, timeout, events).value; Inv(p, c.state) && OnTime(p, c)
  {
    if events == [] {
      StartHolds(p);
    } else {
      var sofar := events[..|events| - 1];
      AlwaysOnTime(p, timeout, sofar);
      var c := Clocked(p, timeout, sofar).value;
      StepHolds(p, c.state, events[|events| - 1].event);
      TickOnTime(p, timeout, c, events[|events| - 1]);
    }
  }

  /** Until it returns, the present moment is one the clock may wait until: no timer and no
      call is overdue. */
  ghost predicate NothingOverdue(p: Plan, timeout: nat, c: Timed) {
    c.state.returned.None? ==> MayWaitUntil(p, timeout, c, c.now)
  }

  lemma TickLeavesNothingOverdue(p: Plan, timeout: nat, c: Timed, e: Stamped)
    requires Inv(p, c.state) && OnTime(p, c) && Ready(p, timeout, c, e)
    ensures NothingOverdue(p, timeout, Tick(p, timeout, c, e))
  {
    InFlightAfter(p, c.state, e.event);
    EveryPassLaunchesOne(p, c.state, e.event);
    NothingOverdueByLaunches(p, timeout, c, e, Tick(p, timeout, c, e));
  }

  /** The step of the argument, with the race itself out of sight. */
  lemma NothingOverdueByLaunches(p: Plan, timeout: nat, c: Timed, e: Stamped, d: Timed)
    requires MayWaitUntil(p, timeout, c, e.at) && d.now == e.at
    requires |c.launchedAt| == c.state.next && 0 < c.state.next
    requires e.event.Begin? ==> d.state.next == c.state.next && d.pass == c.pass
    requires !e.event.Begin? ==> d.pass == e.at
    requires d.launchedAt == if d.state.next > c.state.next then c.launchedAt + [e.at] else c.launchedAt
    requires forall i :: i in c.state.inflight ==> i < c.state.next
    requires forall i :: i in d.state.inflight ==> i in c.state.inflight || i == c.state.next
    ensures NothingOverdue(p, timeout, d)
  {
  }

  lemma InFlightAfter(p: Plan, s: State, e: Event)
    requires Enabled(p, s, e)
    ensures forall i :: i in Step(p, s, e).inflight ==> i in s.inflight || i == s.next
  {
  }

  lemma {:induction false} NeverOverdue(p: Plan, timeout: nat, events: seq<Stamped>)
    requires Clocked(p, timeout, events).Some?
    ensures NothingOverdue(p, timeout, Clocked(p, timeout, events).value)
  {
    if events != [] {
      var sofar := events[..|events| - 1];
      AlwaysOnTime(p, timeout, sofar);
      TickLeavesNothingOverdue(p, timeout, Clocked(p, timeout, sofar).value, events[|events| - 1]);
    }
  }

  lemma NoCallOutlasts(p: Plan, timeout: nat, c: Timed, e: Stamped)
    requires Inv(p, c.state) && OnTime(p, c) && Ready(p, timeout, c, e)
    ensures p.Limit() > 0 && e.at <= Patience(p, p.Limit() - 1) + timeout
  {
    EveryPassLaunchesOne(p, c.state, e.event);
    var i :| i in c.state.inflight;
    PatienceGrows(p, i, p.Limit() - 1);
  }

  // The clocked race is a race

  function Unstamped(events: seq<Stamped>): seq<Event> {
    if events == [] then [] else Unstamped(events[..|events| - 1]) + [events[|events| - 1].event]
  }

  lemma {:induction false} ClockedIsLegal(p: Plan, timeout: nat, events: seq<Stamped>)
    requires Clocked(p, timeout, events).Some?
    ensures |Unstamped(events)| == |events|
    ensures Legal(p, Unstamped(events)) && After(p, Unstamped(events)) == Clocked(p, timeout, events).value.state
  {
    if events != [] {
      var sofar := events[..|events| - 1];
      ClockedIsLegal(p, timeout, sofar);
      Extend(p, Unstamped(sofar), events[|events| - 1].event);
    }
  }

  /** What may happen next, without waiting: a first poll, or the end of a call. */
  lemma AlwaysReady(p: Plan, timeout: nat, events: seq<Stamped>) returns (e: Stamped)
    requires Clocked(p, timeout, events).Some?
    ensures var c := Clocked(p, timeout, events).value; c.state.returned.None? ==> Ready(p, timeout, c, e)
  {
    var c := Clocked(p, timeout, events).value;
    ClockedIsLegal(p, timeout, events);
    NeverOverdue(p, timeout, events);
    e := Stamped(Timer, c.now);
    if c.state.returned.None? {
      AlwaysSomethingToDo(p, Unstamped(events));
      var event :| Enabled(p, c.state, event) && !event.Timer?;
      e := Stamped(event, c.now);
    }
  }

  /** Every call in flight may last until `t`. */
  ghost predicate AllOutlast(timeout: nat, c: Timed, t: nat) {
    forall i :: i in c.state.inflight && i < |c.launchedAt| ==> t <= c.launchedAt[i] + timeout
  }

  /** The timer fires as soon as the newest call has had its time, unless another call is
      bound to end first. */
  lemma TimerIsReady(p: Plan, timeout: nat, events: seq<Stamped>)
    requires Clocked(p, timeout, events).Some?
    ensures var c := Clocked(p, timeout, events).value;
            c.state.returned.None? && c.state.next < p.Limit() ==>
              && 0 < c.state.next <= |c.launchedAt| && c.state.next <= |p.chain|
              && var due := c.launchedAt[c.state.next - 1] + p.chain[c.state.next - 1].hedgeAfter;
              AllOutlast(timeout, c, due) ==> Ready(p, timeout, c, Stamped(Timer, due))
  {
    hide Clocked, Inv, Legal, After, Ready;
    AlwaysOnTime(p, timeout, events);
    ClockedIsLegal(p, timeout, events);
    NeverOverdue(p, timeout, events);
    var c := Clocked(p, timeout, events).value;
    if c.state.returned.None? {
      AlwaysSomethingToDo(p, Unstamped(events));
      if c.state.next < p.Limit() { TimerIsReadyIn(p, timeout, c); }
    }
  }

  lemma TimerIsReadyIn(p: Plan, timeout: nat, c: Timed)
    requires Enabled(p, c.state, Timer) && OnTime(p, c) && NothingOverdue(p, timeout, c)
    ensures var due := c.launchedAt[c.state.next - 1] + p.chain[c.state.next - 1].hedgeAfter;
            AllOutlast(timeout, c, due) ==> Ready(p, timeout, c, Stamped(Timer, due))
  {
  }

  /** Upstream i is started no later than the summed patience with those before it, and
      nothing happens after the summed patience with all but the last, plus one call.  A
      schedule has at most 3*limit - 1 events, and one that has not returned can go on, so
      the race is over by then. */
  lemma {:induction false} RaceIsPrompt(p: Plan, timeout: nat, events: seq<Stamped>)
    requires Clocked(p, timeout, events).Some? && p.Limit() > 0
    ensures var c := Clocked(p, timeout, events).value;
            && |c.launchedAt| == c.state.next <= |p.chain|
            && (forall i :: 0 <= i < c.state.next ==> c.launchedAt[i] <= Patience(p, i))
            && c.now <= Patience(p, p.Limit() - 1) + timeout
            && |events| <= 3 * p.Limit() - 1
            && (c.state.returned.None? ==> exists e :: Ready(p, timeout, c, e))
  {
    AlwaysOnTime(p, timeout, events);
    ClockedIsLegal(p, timeout, events);
    RaceEnds(p, Unstamped(events));
    var e := AlwaysReady(p, timeout, events);
    if events != [] {
      var sofar := events[..|events| - 1];
      var before := Clocked(p, timeout, sofar).value;
      AlwaysOnTime(p, timeout, sofar);
      NoCallOutlasts(p, timeout, before, events[|events| - 1]);
    }
  }

  lemma ClockedOn(p: Plan, timeout: nat, events: seq<Stamped>, e: Stamped)
    requires Clocked(p, timeout, events).Some?
    ensures Ready(p, timeout, Clocked(p, timeout, events).value, e) <==> Clocked(p, timeout, events + [e]).Some?
  {
    assert (events + [e])[..|events|] == events;
  }

  /** However far a clocked race has come, it goes on to return, and in time. */
  lemma {:induction false} RaceReturnsInTime(p: Plan, timeout: nat, events: seq<Stamped>) returns (more: seq<Stamped>)
    requires Clocked(p, timeout, events).Some? && p.Limit() > 0
    ensures Clocked(p, timeout, events + more).Some?
    ensures var c := Clocked(p, timeout, events + more).value;
            c.state.returned.Some? && c.now <= Patience(p, p.Limit() - 1) + timeout
    decreases 3 * p.Limit() - |events|
  {
    hide Clocked, Ready, Patience;
    RaceIsPrompt(p, timeout, events);
    var c := Clocked(p, timeout, events).value;
    if c.state.returned.Some? {
      more := [];
      assert events + more == events;
    } else {
      var e := AlwaysReady(p, timeout, events);
      ClockedOn(p, timeout, events, e);
      var rest := RaceReturnsInTime(p, timeout, events + [e]);
      more := [e] + rest;
      assert events + more == (events + [e]) + rest;
    }
  }

  /** A clocked race that cannot go on has returned, and in time. */
  lemma StopsOnlyByReturning(p: Plan, timeout: nat, events: seq<Stamped>)
    requires Clocked(p, timeout, events).Some? && p.Limit() > 0
    requires forall e :: Clocked(p, timeout, events + [e]).None?
    ensures var c := Clocked(p, timeout, events).value;
            c.state.returned.Some? && c.now <= Patience(p, p.Limit() - 1) + timeout
  {
    RaceIsPrompt(p, timeout, events);
    var e := AlwaysReady(p, timeout, events);
    ClockedOn(p, timeout, events, e);
    assert Clocked(p, timeout, events + [e]).None?;
  }
}
