/**
 * Ordering the chain of one request (src/decider/least_latency/mod.rs:83-98,
 * src/decider/round_robin.rs:14-21).
 */
module Deciders {
  import opened Upstreams
  import opened Ranking

  const PROBE_EVERY: nat := 20

  // One request in twenty is led by a challenger, each in turn

  function Promoted(ranking: seq<UpstreamId>, k: nat): seq<UpstreamId>
    requires k < |ranking|
  {
    [ranking[k]] + ranking[..k] + ranking[k + 1..]
  }

  /** The place in the ranking of the upstream that leads the given request. */
  function Turn(n: nat, request: nat): (k: nat)
    requires n > 0
    ensures k < n
  {
    if n == 1 || request % PROBE_EVERY != 0 then 0 else request / PROBE_EVERY % (n - 1) + 1
  }

  function LeadOf(ranking: seq<UpstreamId>, request: nat): UpstreamId
    requires ranking != []
  {
    ranking[Turn(|ranking|, request)]
  }

  class LeastLatency {
    const standing: Standing
    var requests: nat

    constructor (standing: Standing)
      ensures this.standing == standing && requests == 0
    {
      this.standing, requests := standing, 0;
    }

    /** The upstream whose turn it is first, then the others in their order, cut at `max`. */
    method Decide(max: nat) returns (chain: seq<UpstreamId>)
      modifies this
      ensures requests == old(requests) + 1
      ensures |chain| == Min(max, |standing.upstreams|)
      ensures chain != [] ==>
              var ranking := standing.upstreams;
              chain[0] == LeadOf(ranking, old(requests))
              && chain == Promoted(ranking, Turn(|ranking|, old(requests)))[..|chain|]
      ensures chain != [] ==>
              var ranking, request := standing.upstreams, old(requests);
              var k := if |ranking| == 1 || request % 20 != 0 then 0 else request / 20 % (|ranking| - 1) + 1;
              && chain[0] == ranking[k]
              && forall p :: 1 <= p < |chain| ==> chain[p] == ranking[if p <= k then p - 1 else p]
    {
      var ranking := standing.upstreams;
      var request := requests;
      requests := requests + 1;
      var challengers := if |ranking| == 0 then 0 else |ranking| - 1;
      if challengers == 0 || request % PROBE_EVERY != 0 {
        if ranking != [] { PromotingPermutes(ranking, 0); }
        return ranking[..Min(max, |ranking|)];
      }
      var probed := request / PROBE_EVERY % challengers + 1;
      PromotingPermutes(ranking, probed);
      return ([ranking[probed]] + ranking[..probed] + ranking[probed + 1..])[..Min(max, |ranking|)];
    }
  }

  /** So the chain is a prefix of a permutation of the ranking. */
  lemma PromotingPermutes(ranking: seq<UpstreamId>, k: nat)
    requires k < |ranking|
    ensures multiset(Promoted(ranking, k)) == multiset(ranking)
    ensures k == 0 ==> Promoted(ranking, k) == ranking
    ensures Promoted(ranking, k)[0] == ranking[k]
    ensures forall p :: 1 <= p < |ranking| ==> Promoted(ranking, k)[p] == ranking[if p <= k then p - 1 else p]
  {
    assert ranking == ranking[..k] + [ranking[k]] + ranking[k + 1..];
  }

  function Leaders(ranking: seq<UpstreamId>, from: nat, requests: nat): seq<UpstreamId>
    requires ranking != []
  {
    seq(requests, i requires 0 <= i => LeadOf(ranking, from + i))
  }

  function Copies(u: UpstreamId, n: nat): seq<UpstreamId> {
    seq(n, _ => u)
  }

  lemma ModShifts(x: nat, m: nat)
    requires m > 0
    ensures (x + m) % m == x % m
  {
    var d, r := x / m, x % m;
    assert x + m == (d + 1) * m + r;
    ModIs(x + m, d + 1, m, r);
  }

  lemma ModIs(x: nat, d: nat, m: nat, r: nat)
    requires m > 0 && r < m && x == d * m + r
    ensures x % m == r
  {
    var e := x / m;
    assert x == e * m + x % m;
    if e < d { assert (e + 1) * m <= d * m by { MulGrows(e + 1, d, m); } }
    else if d < e { assert (d + 1) * m <= e * m by { MulGrows(d + 1, e, m); } }
  }

  lemma MulGrows(a: nat, b: nat, m: nat)
    requires a <= b
    ensures a * m <= b * m
  {
  }

  /** The rotation of probes comes round every `20 * (n - 1)` requests. */
  lemma LeadsRepeat(ranking: seq<UpstreamId>, request: nat)
    requires |ranking| >= 2
    ensures LeadOf(ranking, request + PROBE_EVERY * (|ranking| - 1)) == LeadOf(ranking, request)
  {
    var m := |ranking| - 1;
    var later := request + PROBE_EVERY * m;
    assert later % PROBE_EVERY == request % PROBE_EVERY;
    assert later / PROBE_EVERY == request / PROBE_EVERY + m;
    ModShifts(request / PROBE_EVERY, m);
  }

  lemma {:induction false} WindowsAgree(ranking: seq<UpstreamId>, from: nat)
    requires |ranking| >= 2
    ensures multiset(Leaders(ranking, from, PROBE_EVERY * (|ranking| - 1)))
         == multiset(Leaders(ranking, 0, PROBE_EVERY * (|ranking| - 1)))
  {
    hide LeadOf;
    if from > 0 {
      var size := PROBE_EVERY * (|ranking| - 1);
      WindowsAgree(ranking, from - 1);
      var was, now := Leaders(ranking, from - 1, size), Leaders(ranking, from, size);
      LeadsRepeat(ranking, from - 1);
      assert was == [was[0]] + was[1..];
      assert now == was[1..] + [was[0]];
    }
  }

  lemma OneBlock(ranking: seq<UpstreamId>, k: nat)
    requires k + 1 < |ranking|
    ensures Leaders(ranking, PROBE_EVERY * k, PROBE_EVERY) == [ranking[k + 1]] + Copies(ranking[0], PROBE_EVERY - 1)
  {
    var block := Leaders(ranking, PROBE_EVERY * k, PROBE_EVERY);
    ModIs(k, 0, |ranking| - 1, k);
    forall i | 0 <= i < PROBE_EVERY ensures block[i] == if i == 0 then ranking[k + 1] else ranking[0] {
      var request := PROBE_EVERY * k + i;
      assert request % PROBE_EVERY == i && request / PROBE_EVERY == k;
      assert block[i] == LeadOf(ranking, request);
    }
  }

  lemma LeadersSplit(ranking: seq<UpstreamId>, m: nat, n: nat)
    requires ranking != []
    ensures Leaders(ranking, 0, m + n) == Leaders(ranking, 0, m) + Leaders(ranking, m, n)
  {
  }

  lemma CopiesSplit(u: UpstreamId, m: nat, n: nat)
    ensures Copies(u, m + n) == Copies(u, m) + Copies(u, n)
  {
  }

  lemma NoBlocks(ranking: seq<UpstreamId>)
    requires ranking != []
    ensures Leaders(ranking, 0, 0) == [] && Copies(ranking[0], 0) == []
  {
  }

  lemma {:induction false} FirstBlocks(ranking: seq<UpstreamId>, k: nat)
    requires k < |ranking|
    ensures multiset(Leaders(ranking, 0, PROBE_EVERY * k))
         == multiset(ranking[1..k + 1]) + multiset(Copies(ranking[0], (PROBE_EVERY - 1) * k))
  {
    hide LeadOf, Leaders, Copies;
    if k == 0 {
      NoBlocks(ranking);
    } else {
      var c := k - 1;
      FirstBlocks(ranking, c);
      OneBlock(ranking, c);
      LeadersSplit(ranking, PROBE_EVERY * c, PROBE_EVERY);
      CopiesSplit(ranking[0], (PROBE_EVERY - 1) * c, PROBE_EVERY - 1);
      assert ranking[1..k + 1] == ranking[1..k] + [ranking[k]];
    }
  }

  /** While the ranking stands, any `20 * (n - 1)` consecutive requests are led by each
      challenger once and by the head the other `19 * (n - 1)` times. */
  lemma ProbesAreFair(ranking: seq<UpstreamId>, from: nat)
    requires |ranking| >= 2
    ensures var n := |ranking|;
            multiset(Leaders(ranking, from, 20 * (n - 1)))
            == multiset(ranking[1..]) + multiset(Copies(ranking[0], 19 * (n - 1)))
  {
    hide LeadOf;
    WindowsAgree(ranking, from);
    FirstBlocks(ranking, |ranking| - 1);
    assert ranking[1..|ranking| - 1 + 1] == ranking[1..];
  }

  // Round robin

  function Rotated(upstreams: seq<UpstreamId>, start: nat): seq<UpstreamId>
    requires start <= |upstreams|
  {
    upstreams[start..] + upstreams[..start]
  }

  class RoundRobin {
    const upstreams: seq<UpstreamId>
    var next: nat

    constructor (upstreams: seq<UpstreamId>)
      requires upstreams != []
      ensures this.upstreams == upstreams && next == 0
    {
      this.upstreams, next := upstreams, 0;
    }

    /** A call that can return nothing takes no turn. */
    method Decide(max: nat) returns (chain: seq<UpstreamId>)
      modifies this
      ensures next == if upstreams == [] || max == 0 then old(next) else old(next) + 1
      ensures |chain| == Min(max, |upstreams|)
      ensures forall p :: 0 <= p < |chain| ==> chain[p] == InTurn(upstreams, old(next), p)
      ensures forall p :: 0 <= p < |chain| ==> chain[p] == upstreams[(old(next) + p) % |upstreams|]
    {
      if upstreams == [] || max == 0 {
        return [];
      }
      var start := next % |upstreams|;
      TurnsRotate(upstreams, next);
      next := next + 1;
      var head, tail := upstreams[..start], upstreams[start..];
      return (tail + head)[..Min(max, |upstreams|)];
    }
  }

  /** The upstream at a position of the chain of the given call. */
  function InTurn(upstreams: seq<UpstreamId>, call: nat, position: nat): UpstreamId
    requires upstreams != []
  {
    upstreams[(call + position) % |upstreams|]
  }

  lemma TurnAt(x: nat, i: nat, n: nat)
    requires n > 0 && i < n
    ensures (x + i) % n == if x % n + i < n then x % n + i else x % n + i - n
  {
    var d, r := x / n, x % n;
    if r + i < n {
      ModIs(x + i, d, n, r + i);
    } else {
      assert x + i == (d + 1) * n + (r + i - n);
      ModIs(x + i, d + 1, n, r + i - n);
    }
  }

  lemma TurnsRotate(upstreams: seq<UpstreamId>, call: nat)
    requires upstreams != []
    ensures forall p :: 0 <= p < |upstreams| ==> InTurn(upstreams, call, p) == Rotated(upstreams, call % |upstreams|)[p]
  {
    forall p | 0 <= p < |upstreams|
      ensures InTurn(upstreams, call, p) == Rotated(upstreams, call % |upstreams|)[p]
    {
      TurnAt(call, p, |upstreams|);
    }
  }

  /** The upstreams seen at one position over consecutive calls. */
  function Turns(upstreams: seq<UpstreamId>, position: nat, from: nat, calls: nat): seq<UpstreamId>
    requires upstreams != []
  {
    seq(calls, i requires 0 <= i => InTurn(upstreams, from + i, position))
  }

  /** Any n consecutive calls put each upstream in each position once. */
  lemma TurnsAreFair(upstreams: seq<UpstreamId>, position: nat, from: nat)
    requires upstreams != []
    ensures multiset(Turns(upstreams, position, from, |upstreams|)) == multiset(upstreams)
  {
    var n := |upstreams|;
    var start := (from + position) % n;
    TurnsRotate(upstreams, from + position);
    forall i | 0 <= i < n ensures Turns(upstreams, position, from, n)[i] == Rotated(upstreams, start)[i] {
      assert InTurn(upstreams, from + i, position) == InTurn(upstreams, from + position, i);
    }
    assert Turns(upstreams, position, from, n) == Rotated(upstreams, start);
    assert upstreams == upstreams[..start] + upstreams[start..];
  }
}
