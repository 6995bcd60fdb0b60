/**
 * One flight, one question (src/proxy/mod.rs:158-194).
 *
 * Flights are keyed by the text the dedup key is hashed from, and a flight's run makes
 * the answer to its leader's body.  Over every interleaving, what a caller is served was
 * made for a body that asks the caller's own question, and leaves under the caller's id.
 */
module Sharing {
  import opened Upstreams
  import opened Json
  import opened CanonicalKey
  import opened SingleFlight
  import opened Envelope

  /** A value a flight publishes: an answer, and the request whose run made it. */
  datatype Made = Made(maker: RequestId, answer: Answer)

  /** What each request sent, and the methods known to be idempotent. */
  datatype Traffic = Traffic(bodies: RequestId -> Option<Json>, idempotent: set<string>)
  {
    function KeyOf(r: RequestId): Option<Key> {
      KeyText(bodies(r), idempotent)
    }

    function Asks(r: RequestId): Option<(string, Value)> {
      Question(bodies(r), idempotent)
    }
  }

  /** A request joins under the key of its own body, and a run makes its leader's answer. */
  ghost predicate Proper(t: Traffic, w: World<Made>, step: Step<Made>) {
    && (step.Join? ==> t.KeyOf(step.me) == Some(step.key))
    && (step.Return? && step.id < |w.flights| ==> step.value.maker == w.flights[step.id].leader)
  }

  ghost predicate ProperPlay(t: Traffic, steps: seq<Step<Made>>) {
    steps != [] ==>
      var sofar := steps[..|steps| - 1];
      ProperPlay(t, sofar) && Play(sofar).Some? && Proper(t, Play(sofar).value, steps[|steps| - 1])
  }

  /** Each flight carries its leader's key, and only its leader's answer. */
  ghost predicate Carries(t: Traffic, f: Flight<Made>) {
    && t.KeyOf(f.leader) == Some(f.key)
    && (f.phase.Returning? || f.phase.Completed? ==> f.phase.value.maker == f.leader)
  }

  lemma NextCarries(t: Traffic, w: World<Made>, step: Step<Made>)
    requires forall id :: 0 <= id < |w.flights| ==> Carries(t, w.flights[id])
    requires MayStep(w, step) && Proper(t, w, step)
    ensures forall id :: 0 <= id < |Next(w, step).flights| ==> Carries(t, Next(w, step).flights[id])
  {
  }

  lemma {:induction false} AllCarry(t: Traffic, steps: seq<Step<Made>>)
    requires Play(steps).Some? && ProperPlay(t, steps)
    ensures forall id :: 0 <= id < |Play(steps).value.flights| ==> Carries(t, Play(steps).value.flights[id])
  {
    if steps != [] {
      hide Carries, Proper;
      var sofar := steps[..|steps| - 1];
      AllCarry(t, sofar);
      NextCarries(t, Play(sofar).value, steps[|steps| - 1]);
    }
  }

  lemma SameKeySameQuestion(t: Traffic, a: RequestId, b: RequestId)
    requires PrintableBody(t.bodies(a)) && PrintableBody(t.bodies(b))
    requires t.KeyOf(a).Some? && t.KeyOf(a) == t.KeyOf(b)
    ensures t.Asks(a).Some? && t.Asks(a) == t.Asks(b)
  {
    KeyIsTheQuestion(t.bodies(a), t.bodies(b), t.idempotent);
    KeyIsTheQuestion(t.bodies(b), t.bodies(a), t.idempotent);
  }

  lemma {:induction false} ProperPrefix(t: Traffic, steps: seq<Step<Made>>, more: seq<Step<Made>>)
    requires ProperPlay(t, steps + more) && Play(steps + more).Some?
    ensures ProperPlay(t, steps) && Play(steps).Some?
    decreases |more|
  {
    if more == [] {
      assert steps + more == steps;
    } else {
      assert (steps + more)[..|steps + more| - 1] == steps + more[..|more| - 1];
      ProperPrefix(t, steps, more[..|more| - 1]);
    }
  }

  lemma JoinSteps(t: Traffic, steps: seq<Step<Made>>, key: Key, me: RequestId)
    requires Play(steps + [Join(key, me)]).Some? && ProperPlay(t, steps + [Join(key, me)])
    ensures Play(steps).Some? && ProperPlay(t, steps) && t.KeyOf(me) == Some(key)
    ensures Play(steps + [Join(key, me)]).value == Joined(Play(steps).value, key, me).0
  {
    assert (steps + [Join(key, me)])[..|steps|] == steps;
  }

  /** Whoever joins, whenever, and whatever happens next: a value the flight hands out was
      made by its leader, for a body that asks what the caller asks.  The caller is served
      that answer as it is if it leads; if it follows, under its own id with every other
      member as the upstream wrote it, or failing that its own answer. */
  lemma ServedTheirOwn(t: Traffic, steps: seq<Step<Made>>, key: Key, me: RequestId, more: seq<Step<Made>>, i: nat,
      id: string, alone: Answer, member: string)
    requires forall r :: PrintableBody(t.bodies(r))
    requires Play((steps + [Join(key, me)]) + more).Some? && ProperPlay(t, (steps + [Join(key, me)]) + more)
    requires Play(steps).Some?
    requires var w := Play((steps + [Join(key, me)]) + more).value;
             i < |w.delivered| && w.delivered[i].0 == Joined(Play(steps).value, key, me).1
    ensures var made := Play((steps + [Join(key, me)]) + more).value.delivered[i].1;
            var role := Joined(Play(steps).value, key, me).2;
            var served := Coalesced(id, role, made.answer, alone);
            && t.Asks(me).Some? && t.Asks(made.maker) == t.Asks(me)
            && made.maker == (if role.Follower? then role.leader else me)
            && (role.Leader? ==> served == made.answer)
            && (role.Follower? && !Borrowable(made.answer.body) ==> served == alone)
            && (role.Follower? && Borrowable(made.answer.body) ==>
                  && served.httpStatus == made.answer.httpStatus
                  && Envelope.RequestId(served.body) == Some(id)
                  && (member != ID ==> Raw(served.body.value, member) == Raw(made.answer.body.value, member)))
  {
    hide Carries, Raw, PrintableBody, Play, ProperPlay, MayStep;
    var joined := steps + [Join(key, me)];
    ProperPrefix(t, joined, more);
    JoinSteps(t, steps, key, me);
    JoinIsRight(steps, key, me);
    var (v, flight, role) := Joined(Play(steps).value, key, me);
    FlightsEndure(joined, more, flight);
    PlayHolds(joined + more);
    AllCarry(t, joined + more);
    Delivered(t, Play(joined + more).value, i);
    var made := Play(joined + more).value.delivered[i].1;
    SameKeySameQuestion(t, made.maker, me);
    OnlyTheIdChanges(made.answer.body, id, member);
  }

  lemma Delivered(t: Traffic, w: World<Made>, i: nat)
    requires HandedOut(w) && i < |w.delivered|
    requires forall id :: 0 <= id < |w.flights| ==> Carries(t, w.flights[id])
    ensures var (id, made) := w.delivered[i];
            id < |w.flights| && made.maker == w.flights[id].leader && t.KeyOf(made.maker) == Some(w.flights[id].key)
  {
    var (id, made) := w.delivered[i];
    assert w.flights[id].phase == Completed(made);
  }
}
