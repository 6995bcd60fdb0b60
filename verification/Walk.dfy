/**
 * The sequential walk (src/proxy/mod.rs:228-277), how a race is reported
 * (src/proxy/mod.rs:302-342), and the refinement between them: a race whose timer
 * stays quiet is the walk.
 */
module Walk {
  import opened Upstreams
  import opened Hedge

  datatype Ending = Success(reply: Reply, upstream: UpstreamId) | Failure(failure: Hedge.Failure)

  /** What a request leaves behind: its ending, who was tried, and who was failed over from. */
  datatype Finished = Finished(result: Ending, tried: seq<UpstreamId>, failovers: seq<UpstreamId>)

  // The walk, said without walking

  /** The first call at or after `k` that settles the request, or the limit. */
  function Decisive(p: Plan, k: nat): (d: nat)
    requires k <= p.Limit()
    ensures k <= d <= p.Limit()
    ensures forall i :: k <= i < d ==> p.outcome(i).FailsRetryably()
    ensures d < p.Limit() ==> !p.outcome(d).FailsRetryably()
    decreases p.Limit() - k
  {
    if k < p.Limit() && p.outcome(k).FailsRetryably() then Decisive(p, k + 1) else k
  }

  /** How many upstreams the walk tries: up to and including the decisive one. */
  function Tries(p: Plan): nat {
    Min(Decisive(p, 0) + 1, p.Limit())
  }

  function EndingOf(p: Plan, last: nat): Ending
    requires last < |p.chain|
  {
    match p.outcome(last)
    case Answered(reply) => Success(reply, p.chain[last].id)
    case Failed(error) => Failure(Call(error))
  }

  function Walked(p: Plan): Finished {
    var n := Tries(p);
    var ids := Ids(p.chain);
    if n == 0 then Finished(Failure(NoUpstream), [], [])
    else Finished(EndingOf(p, n - 1), ids[..n], ids[..n - 1])
  }

  // The loop

  function TotalOf(duration: nat -> nat, n: nat): nat {
    if n == 0 then 0 else TotalOf(duration, n - 1) + duration(n - 1)
  }

  /** The sleeps between `n` calls. */
  function Pauses(retryAfter: nat, n: nat): (t: nat)
    ensures n > 0 ==> t == (n - 1) * retryAfter
  {
    if n <= 1 then 0 else Pauses(retryAfter, n - 1) + retryAfter
  }

  lemma Settles(p: Plan, k: nat)
    requires k < p.Limit() && Decisive(p, 0) == Decisive(p, k) && !p.outcome(k).FailsRetryably()
    ensures Tries(p) == k + 1 && Walked(p) == Finished(EndingOf(p, k), Ids(p.chain)[..k + 1], Ids(p.chain)[..k])
  {
  }

  lemma RunsOut(p: Plan)
    requires Decisive(p, 0) == Decisive(p, p.Limit())
    ensures var n := p.Limit();
            && Tries(p) == n
            && Walked(p) == if n == 0 then Finished(Failure(NoUpstream), [], [])
                            else Finished(EndingOf(p, n - 1), Ids(p.chain)[..n], Ids(p.chain)[..n - 1])
  {
  }

  lemma RunsOn(p: Plan, k: nat)
    requires k < p.Limit() && p.outcome(k).FailsRetryably()
    ensures Decisive(p, k) == Decisive(p, k + 1)
  {
  }

  lemma NoTimeYet(retryAfter: nat, duration: nat -> nat)
    ensures TotalOf(duration, 0) + Pauses(retryAfter, 0) == 0
  {
  }

  lemma TimePasses(retryAfter: nat, duration: nat -> nat, k: nat)
    ensures TotalOf(duration, k + 1) + Pauses(retryAfter, k + 1)
         == TotalOf(duration, k) + Pauses(retryAfter, k) + (if k == 0 then 0 else retryAfter) + duration(k)
  {
  }

  /** `elapsed` reads an idealised clock: the calls and the sleeps between them. */
  method WalkChain(p: Plan, retryAfter: nat, duration: nat -> nat) returns (finished: Finished, elapsed: nat)
    ensures finished == Walked(p)
    ensures elapsed == TotalOf(duration, Tries(p)) + Pauses(retryAfter, Tries(p))
  {
    hide Decisive, Tries, Walked, TotalOf, Pauses;
    NoTimeYet(retryAfter, duration);
    var tried: seq<UpstreamId> := [];
    var failovers: seq<UpstreamId> := [];
    var lastFailure: Option<CallError> := None;
    elapsed := 0;
    var ids := Ids(p.chain);
    for k := 0 to |p.chain|
      invariant |tried| == k <= p.Limit()
      invariant tried == ids[..k]
      invariant failovers == ids[..if k == 0 then 0 else k - 1]
      invariant Decisive(p, 0) == Decisive(p, k)
      invariant k == 0 ==> lastFailure == None
      invariant k > 0 ==> p.outcome(k - 1).FailsRetryably() && lastFailure == Some(p.outcome(k - 1).error)
      invariant elapsed == TotalOf(duration, k) + Pauses(retryAfter, k)
    {
      if |tried| >= p.maxAttempt {
        RunsOut(p);
        break;
      }
      if |tried| > 0 {
        failovers := failovers + [tried[|tried| - 1]];
        elapsed := elapsed + retryAfter;
      }
      tried := tried + [p.chain[k].id];
      elapsed := elapsed + duration(k);
      TimePasses(retryAfter, duration, k);
      if !p.outcome(k).FailsRetryably() { Settles(p, k); } else { RunsOn(p, k); }
      match p.outcome(k)
      case Answered(reply) =>
        return Finished(Success(reply, p.chain[k].id), tried, failovers), elapsed;
      case Failed(error) =>
        lastFailure := Some(error);
        if !error.IsRetryable() {
          break;
        }
    }
    if |tried| == |p.chain| && (lastFailure.None? || lastFailure.value.IsRetryable()) { RunsOut(p); }
    finished := Finished(Failure(Exhausted(lastFailure)), tried, failovers);
  }

  lemma {:induction false} TotalIsBounded(duration: nat -> nat, n: nat, timeout: nat)
    requires forall i: nat :: i < n ==> duration(i) <= timeout
    ensures TotalOf(duration, n) <= n * timeout
  {
    if n > 0 {
      TotalIsBounded(duration, n - 1, timeout);
    }
  }

  lemma Scale(m: nat, n: nat, unit: nat)
    requires m <= n
    ensures m * unit <= n * unit
  {
  }

  /** A walk over calls of at most `timeout` each returns within
      limit * timeout + (limit - 1) * retryAfter. */
  lemma WalkIsPrompt(p: Plan, retryAfter: nat, duration: nat -> nat, timeout: nat)
    requires forall i: nat :: i < p.Limit() ==> duration(i) <= timeout
    requires p.Limit() > 0
    ensures Tries(p) > 0
    ensures TotalOf(duration, Tries(p)) + Pauses(retryAfter, Tries(p))
            <= p.Limit() * timeout + (p.Limit() - 1) * retryAfter
  {
    var n := Tries(p);
    TotalIsBounded(duration, n, timeout);
    Scale(n, p.Limit(), timeout);
    Scale(n - 1, p.Limit() - 1, retryAfter);
  }

  // Which outcomes end a request

  /** The walk goes on exactly past the outcomes that pass a request on, and ends with what
      the last upstream it tries gives it. */
  lemma WalkEndsWhere(p: Plan)
    ensures var w := Walked(p);
            var n := |w.tried|;
            && n <= p.Limit() && (n == 0 <==> p.Limit() == 0)
            && w.tried == Ids(p.chain)[..n]
            && w.failovers == Ids(p.chain)[..if n == 0 then 0 else n - 1]
            && (forall i: nat :: i < n - 1 ==> PassedOn(p.outcome(i)))
            && (0 < n < p.Limit() ==> !PassedOn(p.outcome(n - 1)))
            && w.result ==
               if n == 0 then Failure(NoUpstream)
               else if p.outcome(n - 1).Answered? then Success(p.outcome(n - 1).reply, p.chain[n - 1].id)
               else Failure(Call(p.outcome(n - 1).error))
    ensures (forall i: nat :: i < p.Limit() ==> PassedOn(p.outcome(i))) ==> Walked(p).tried == Ids(p.chain)[..p.Limit()]
    ensures p.Limit() > 0 && !PassedOn(p.outcome(0)) ==> Walked(p).tried == [p.chain[0].id]
  {
    forall i: nat {
      RetryableMeans(p.outcome(i));
    }
    if p.Limit() > 0 { assert Ids(p.chain)[..1] == [p.chain[0].id]; }
  }

  /** A race that returns passed over every call that completed before the last, and then
      either the last settled it, or every upstream up to the limit passed it on. */
  lemma RaceEndsWhere(p: Plan, events: seq<Event>)
    requires Legal(p, events) && After(p, events).returned.Some?
    ensures var s := After(p, events);
            var raced, n := s.returned.value, |s.done|;
            && (n == 0 <==> p.Limit() == 0)
            && (forall k :: 0 <= k < n - 1 ==> PassedOn(p.outcome(s.done[k])))
            && (n > 0 && PassedOn(p.outcome(s.done[n - 1])) ==>
                  raced.started == p.Limit()
                  && forall i: nat :: i < p.Limit() ==> i in s.done && PassedOn(p.outcome(i)))
            && (n > 0 ==> raced.result.Won? == p.outcome(s.done[n - 1]).Answered?)
            && (n > 0 && raced.result.Lost? ==> raced.result.failure == Call(p.outcome(s.done[n - 1]).error))
    ensures p.Limit() > 0 && (forall i: nat :: i < p.Limit() ==> PassedOn(p.outcome(i))) ==>
              After(p, events).returned.value.started == p.Limit() && After(p, events).returned.value.result.Lost?
  {
    hide Run, Explained, HedgeCount;
    forall i: nat {
      RetryableMeans(p.outcome(i));
    }
    Reachable(p, events);
    NeverGivesUpEarly(p, events);
    var s := After(p, events);
    if s.done != [] { assert s.done[|s.done| - 1] in s.done; }
  }

  // A race as the pipeline reports it

  /** The observer is told of a failover as the call is launched. */
  function FailoversOf(p: Plan, causes: seq<Cause>): seq<UpstreamId>
    requires forall i :: 0 <= i < |causes| && causes[i].FailedOver? ==> causes[i].from < |p.chain|
  {
    if causes == [] then []
    else
      var last := causes[|causes| - 1];
      FailoversOf(p, causes[..|causes| - 1]) + if last.FailedOver? then [p.chain[last.from].id] else []
  }

  function Report(p: Plan, raced: Raced, causes: seq<Cause>): Finished
    requires raced.started <= |p.chain|
    requires raced.result.Won? ==> raced.result.index < |p.chain|
    requires forall i :: 0 <= i < |causes| && causes[i].FailedOver? ==> causes[i].from < |p.chain|
  {
    var ending := match raced.result
      case Won(index, _, reply) => Success(reply, p.chain[index].id)
      case Lost(failure) => Failure(failure);
    Finished(ending, Ids(p.chain)[..raced.started], FailoversOf(p, causes))
  }

  // With a quiet timer the race is the walk

  predicate Quiet(events: seq<Event>) {
    forall e :: e in events ==> !e.Timer?
  }

  /** The causes of a race that only ever fails over. */
  function OneByOne(n: nat): seq<Cause> {
    seq(n, (i: nat) => if i == 0 then First else FailedOver(i - 1))
  }

  /** One call at a time, in chain order. */
  ghost predicate InStep(p: Plan, s: State) {
    && s.next <= p.Limit()
    && s.causes == OneByOne(s.next)
    && (forall i :: 0 <= i < s.next - 1 ==> p.outcome(i).FailsRetryably())
    && (s.returned.None? ==> s.next > 0 && s.inflight == map[s.next - 1 := s.causes[s.next - 1]])
    && (s.returned.Some? ==>
          && s.inflight == map[]
          && s.returned.value.started == s.next
          && if s.next == 0 then p.Limit() == 0 && s.returned.value.result == Lost(NoUpstream)
             else
               && (s.next < p.Limit() ==> !p.outcome(s.next - 1).FailsRetryably())
               && s.returned.value.result ==
                    match p.outcome(s.next - 1)
                    case Answered(reply) => Won(s.next - 1, s.causes[s.next - 1], reply)
                    case Failed(error) => Lost(Call(error)))
  }

  lemma QuietStep(p: Plan, s: State, e: Event)
    requires InStep(p, s) && Enabled(p, s, e) && !e.Timer?
    ensures InStep(p, Step(p, s, e))
  {
    if e.Complete? {
      assert e.index == s.next - 1;
      assert Land(s, e.index).inflight == map[];
      assert OneByOne(s.next) + [FailedOver(s.next - 1)] == OneByOne(s.next + 1);
      var alone: map<nat, Cause> := map[];
      assert alone[s.next := FailedOver(s.next - 1)] == map[s.next := OneByOne(s.next + 1)[s.next]];
      assert s.next in alone[s.next := FailedOver(s.next - 1)];
    }
  }

  lemma {:induction false} QuietRun(p: Plan, events: seq<Event>)
    requires Legal(p, events) && Quiet(events)
    ensures InStep(p, After(p, events))
  {
    if events == [] {
      assert [First] == OneByOne(1) && IDLE.causes + [First] == [First];
      assert IDLE.causes == OneByOne(0);
      assert IDLE.inflight[0 := First] == map[0 := First];
      assert 0 in IDLE.inflight[0 := First];
    } else {
      var sofar := events[..|events| - 1];
      QuietRun(p, sofar);
      QuietStep(p, After(p, sofar), events[|events| - 1]);
    }
  }

  lemma {:induction false} FailoversInOrder(p: Plan, n: nat)
    requires n <= |p.chain|
    ensures FailoversOf(p, OneByOne(n)) == Ids(p.chain)[..if n == 0 then 0 else n - 1]
  {
    if n > 0 {
      FailoversInOrder(p, n - 1);
      assert OneByOne(n)[..n - 1] == OneByOne(n - 1);
      if n > 1 {
        assert Ids(p.chain)[..n - 1] == Ids(p.chain)[..n - 2] + [p.chain[n - 2].id];
      }
    }
  }

  lemma {:induction false} DecisiveIsFirst(p: Plan, k: nat, d: nat)
    requires k <= d <= p.Limit()
    requires forall i :: k <= i < d ==> p.outcome(i).FailsRetryably()
    requires d < p.Limit() ==> !p.outcome(d).FailsRetryably()
    ensures Decisive(p, k) == d
    decreases d - k
  {
    if k < d {
      DecisiveIsFirst(p, k + 1, d);
    }
  }

  /** For every oracle of call outcomes and every schedule in which the timer never
      fires, the race reports what the walk reports: the same ending, the same
      upstreams tried, and the same failovers in the same order. */
  lemma QuietRaceIsTheWalk(p: Plan, events: seq<Event>)
    requires Legal(p, events) && Quiet(events) && After(p, events).returned.Some?
    ensures var s := After(p, events);
            && s.next <= |p.chain|
            && s.causes == OneByOne(s.next)
            && s.returned.value.started == s.next
            && (s.returned.value.result.Won? ==> s.returned.value.result.index < |p.chain|)
            && Report(p, s.returned.value, s.causes) == Walked(p)
  {
    QuietRun(p, events);
    var s := After(p, events);
    FailoversInOrder(p, s.next);
    var n := s.next;
    if n > 0 {
      DecisiveIsFirst(p, 0, if p.outcome(n - 1).FailsRetryably() then n else n - 1);
    }
    assert n == Tries(p);
  }
}
