/**
 * Coalescing concurrent identical requests (src/proxy/singleflight/).
 *
 * A flight is shared by the handles its callers hold; the map holds it only weakly.
 * What is assumed of the shared future is stated as atomic steps: an upgrade fails once
 * the strong count is zero; the first poll runs `make`; on completion, or on a panic,
 * the run's locals are dropped in the last poll, `Evict` among them, before the value is
 * published; and when the last handle goes, the strong count is zero before the run and
 * its `Evict` are dropped.  A join can fall into any of the gaps between these steps.
 */
module SingleFlight {
  import opened Upstreams

  type Key = string
  type RequestId = nat
  type FlightId = nat

  datatype Role = Leader | Follower(leader: RequestId)

  datatype Entry = Entry(id: FlightId, leader: RequestId)

  datatype Phase<+T> =
    | Unpolled
    | Running
    | Returning(value: T)   // in its last poll, the value not yet published
    | Unwinding             // in its last poll, a panic passing through
    | Completed(value: T)
    | Poisoned
  {
    predicate InLastPoll() {
      Returning? || Unwinding?
    }
  }

  datatype Flight<+T> = Flight(
    key: Key,
    leader: RequestId,
    handles: nat,
    phase: Phase<T>,
    makes: nat,
    evicted: bool)
  {
    /** Someone holds it and its `Evict` has not run. */
    predicate Live() {
      handles > 0 && !evicted
    }
  }

  /** The map, every flight ever made (a flight's id is its index), and the values handed
      to callers. */
  datatype World<+T> = World(entries: map<Key, Entry>, flights: seq<Flight<T>>, delivered: seq<(FlightId, T)>)

  datatype Step<+T> =
    | Join(key: Key, me: RequestId)
    | FirstPoll(id: FlightId)
    | Return(id: FlightId, value: T)
    | Panic(id: FlightId)
    | Evict(id: FlightId)
    | Publish(id: FlightId)
    | Clone(id: FlightId)
    | DropHandle(id: FlightId)
    | Deliver(id: FlightId)

  predicate MayStep<T>(w: World<T>, step: Step<T>) {
    step.Join? ||
    (step.id < |w.flights| &&
     var f := w.flights[step.id];
     match step
     case Join(_, _) => true
     case FirstPoll(_) => f.handles > 0 && f.phase.Unpolled?
     case Return(_, _) => f.handles > 0 && f.phase.Running?
     case Panic(_) => f.handles > 0 && f.phase.Running?
     case Evict(_) => !f.evicted && (f.phase.InLastPoll() || f.handles == 0)
     case Publish(_) => f.phase.InLastPoll() && f.evicted
     case Clone(_) => f.handles > 0
     // the handle being polled cannot be dropped
     case DropHandle(_) => f.handles > (if f.phase.InLastPoll() then 1 else 0)
     case Deliver(_) => f.handles > 0 && f.phase.Completed?)
  }

  // The two steps that touch the map, on the map alone

  /** `join` under the lock: a live flight is followed, anything else is replaced. */
  function JoinMap(entries: map<Key, Entry>, next: FlightId, strong: seq<nat>, key: Key, me: RequestId)
    : (r: (map<Key, Entry>, FlightId, Role))
  {
    if key in entries && entries[key].id < |strong| && strong[entries[key].id] > 0 then
      (entries, entries[key].id, Follower(entries[key].leader))
    else
      (entries[key := Entry(next, me)], next, Leader)
  }

  /** `Evict` under the lock: only its own entry goes. */
  function EvictMap(entries: map<Key, Entry>, key: Key, id: FlightId): map<Key, Entry> {
    if key in entries && entries[key].id == id then entries - {key} else entries
  }

  function Strong<T>(w: World<T>): seq<nat> {
    seq(|w.flights|, i requires 0 <= i < |w.flights| => w.flights[i].handles)
  }

  function Joined<T>(w: World<T>, key: Key, me: RequestId): (World<T>, FlightId, Role) {
    var (entries, id, role) := JoinMap(w.entries, |w.flights|, Strong(w), key, me);
    if id < |w.flights| then
      var f := w.flights[id];
      (w.(flights := w.flights[id := f.(handles := f.handles + 1)]), id, role)
    else
      (w.(entries := entries, flights := w.flights + [Flight(key, me, 1, Unpolled, 0, false)]), id, role)
  }

  function Next<T>(w: World<T>, step: Step<T>): World<T>
    requires MayStep(w, step)
  {
    if step.Join? then Joined(w, step.key, step.me).0
    else
      var f := w.flights[step.id];
      match step
      case Join(_, _) => w
      case FirstPoll(id) => Put(w, id, f.(phase := Running, makes := f.makes + 1))
      case Return(id, value) => Put(w, id, f.(phase := Returning(value)))
      case Panic(id) => Put(w, id, f.(phase := Unwinding))
      case Evict(id) => Put(w, id, f.(evicted := true)).(entries := EvictMap(w.entries, f.key, id))
      case Publish(id) => Put(w, id, f.(phase := if f.phase.Returning? then Completed(f.phase.value) else Poisoned))
      case Clone(id) => Put(w, id, f.(handles := f.handles + 1))
      case DropHandle(id) => Put(w, id, f.(handles := f.handles - 1))
      case Deliver(id) => Put(w, id, f.(handles := f.handles - 1)).(delivered := w.delivered + [(id, f.phase.value)])
  }

  function Put<T>(w: World<T>, id: FlightId, f: Flight<T>): World<T>
    requires id < |w.flights|
  {
    w.(flights := w.flights[id := f])
  }

  function Play<T>(steps: seq<Step<T>>): Option<World<T>> {
    if steps == [] then Some(World(map[], [], []))
    else
      var before := Play(steps[..|steps| - 1]);
      var step := steps[|steps| - 1];
      if before.Some? && MayStep(before.value, step) then Some(Next(before.value, step)) else None
  }

  // The invariant

  /** A flight that someone holds and whose `Evict` has not run is the one its key maps to. */
  ghost predicate LiveAreMapped<T>(w: World<T>) {
    forall id :: 0 <= id < |w.flights| && w.flights[id].Live() ==>
      var f := w.flights[id];
      f.key in w.entries && w.entries[f.key] == Entry(id, f.leader)
  }

  /** Every entry belongs to a flight whose `Evict` has not run. */
  ghost predicate MappedAreUnevicted<T>(w: World<T>) {
    forall key :: key in w.entries ==>
      var entry := w.entries[key];
      && entry.id < |w.flights|
      && w.flights[entry.id].key == key
      && w.flights[entry.id].leader == entry.leader
      && !w.flights[entry.id].evicted
  }

  ghost predicate Settled<T>(f: Flight<T>) {
    && f.makes == (if f.phase.Unpolled? then 0 else 1)
    && (f.phase.Completed? || f.phase.Poisoned? ==> f.evicted)
    && (f.evicted ==> f.phase.InLastPoll() || f.phase.Completed? || f.phase.Poisoned? || f.handles == 0)
    && (f.phase.InLastPoll() ==> f.handles > 0)
  }

  ghost predicate HandedOut<T>(w: World<T>) {
    forall i :: 0 <= i < |w.delivered| ==>
      var (id, value) := w.delivered[i];
      id < |w.flights| && w.flights[id].phase == Completed(value)
  }

  ghost predicate Inv<T>(w: World<T>) {
    && LiveAreMapped(w)
    && MappedAreUnevicted(w)
    && (forall id :: 0 <= id < |w.flights| ==> Settled(w.flights[id]))
    && HandedOut(w)
  }

  /** A flight may move on by itself as long as it does not come back to life. */
  lemma PutHolds<T>(w: World<T>, id: FlightId, g: Flight<T>)
    requires Inv(w) && id < |w.flights|
    requires var f := w.flights[id];
             && g.key == f.key && g.leader == f.leader && g.evicted == f.evicted
             && (g.Live() ==> f.Live()) && Settled(g)
             && (f.phase.Completed? ==> g.phase == f.phase)
    ensures Inv(Put(w, id, g))
  {
    var v := Put(w, id, g);
    forall i | 0 <= i < |w.delivered|
      ensures v.delivered[i].0 < |v.flights| && v.flights[v.delivered[i].0].phase == Completed(v.delivered[i].1)
    {
      assert w.flights[w.delivered[i].0].phase == Completed(w.delivered[i].1);
    }
  }

  lemma JoinHolds<T>(w: World<T>, key: Key, me: RequestId)
    requires Inv(w)
    ensures Inv(Joined(w, key, me).0)
  {
    var v := Joined(w, key, me).0;
    forall i | 0 <= i < |w.delivered|
      ensures v.delivered[i].0 < |v.flights| && v.flights[v.delivered[i].0].phase == Completed(v.delivered[i].1)
    {
      assert w.flights[w.delivered[i].0].phase == Completed(w.delivered[i].1);
    }
  }

  lemma EvictHolds<T>(w: World<T>, id: FlightId)
    requires Inv(w) && MayStep(w, Step.Evict(id))
    ensures Inv(Next(w, Step.Evict(id)))
  {
    var v := Next(w, Step.Evict(id));
    forall i | 0 <= i < |w.delivered|
      ensures v.delivered[i].0 < |v.flights| && v.flights[v.delivered[i].0].phase == Completed(v.delivered[i].1)
    {
      assert w.flights[w.delivered[i].0].phase == Completed(w.delivered[i].1);
    }
  }

  lemma DeliverHolds<T>(w: World<T>, id: FlightId)
    requires Inv(w) && MayStep(w, Deliver(id))
    ensures Inv(Next(w, Deliver(id)))
  {
    var f := w.flights[id];
    PutHolds(w, id, f.(handles := f.handles - 1));
  }

  lemma StepHolds<T>(w: World<T>, step: Step<T>)
    requires Inv(w) && MayStep(w, step)
    ensures Inv(Next(w, step))
  {
    match step
    case Join(key, me) => JoinHolds(w, key, me);
    case Evict(id) => EvictHolds(w, id);
    case Deliver(id) => DeliverHolds(w, id);
    case _ => PutHolds(w, step.id, Next(w, step).flights[step.id]);
  }

  lemma {:induction false} PlayHolds<T>(steps: seq<Step<T>>)
    requires Play(steps).Some?
    ensures Inv(Play(steps).value)
  {
    if steps != [] {
      var sofar := steps[..|steps| - 1];
      PlayHolds(sofar);
      StepHolds(Play(sofar).value, steps[|steps| - 1]);
    }
  }

  // What it is for, over every interleaving

  /** Each key has at most one live flight, and it is the one the map holds. */
  lemma OneLiveFlightPerKey<T>(steps: seq<Step<T>>, a: FlightId, b: FlightId)
    requires Play(steps).Some?
    requires var fs := Play(steps).value.flights;
             a < |fs| && b < |fs| && fs[a].Live() && fs[b].Live() && fs[a].key == fs[b].key
    ensures a == b
    ensures var w := Play(steps).value;
            w.flights[a].key in w.entries && w.entries[w.flights[a].key] == Entry(a, w.flights[a].leader)
  {
    PlayHolds(steps);
  }

  /** A join follows exactly when its key has a live flight, and then it is handed that
      flight with the request that created it; otherwise it leads a new flight.  The flight
      it is handed has not completed, so nothing is ever served from the past, and no
      flight is polled, evicted or completed by joining. */
  lemma JoinIsRight<T>(steps: seq<Step<T>>, key: Key, me: RequestId)
    requires Play(steps).Some?
    ensures var w := Play(steps).value;
            var (v, id, role) := Joined(w, key, me);
            && (role.Follower? <==> exists f :: 0 <= f < |w.flights| && w.flights[f].Live() && w.flights[f].key == key)
            && id < |v.flights| && v.flights[id].Live() && v.flights[id].key == key
            && (role.Follower? ==> id < |w.flights| && w.flights[id].Live()
                                   && w.flights[id].key == key && role.leader == w.flights[id].leader)
            && (role.Leader? ==> id == |w.flights| && v.flights[id].leader == me && v.flights[id].phase.Unpolled?)
            && !v.flights[id].phase.Completed? && !v.flights[id].phase.Poisoned?
            && key in v.entries && v.entries[key] == Entry(id, v.flights[id].leader)
            && (forall f :: 0 <= f < |w.flights| ==>
                  v.flights[f] == w.flights[f].(handles := w.flights[f].handles + if f == id then 1 else 0))
  {
    PlayHolds(steps);
    JoinHolds(Play(steps).value, key, me);
  }

  /** An `Evict` delayed past its replacement removes nothing; one that is not removes its
      own entry and no other.  Either way every other live flight stays mapped. */
  lemma EvictSparesOthers<T>(steps: seq<Step<T>>, id: FlightId)
    requires Play(steps).Some? && MayStep(Play(steps).value, Step.Evict(id))
    ensures var w := Play(steps).value;
            var v := Next(w, Step.Evict(id));
            var key := w.flights[id].key;
            && (key !in w.entries || w.entries[key].id != id ==> v.entries == w.entries)
            && (key in w.entries && w.entries[key].id == id ==> v.entries == w.entries - {key})
            && (forall other :: 0 <= other < |w.flights| && other != id && w.flights[other].Live() ==>
                  w.flights[other].key in v.entries && v.entries[w.flights[other].key].id == other)
  {
    PlayHolds(steps);
    EvictHolds(Play(steps).value, id);
    var w, v := Play(steps).value, Next(Play(steps).value, Step.Evict(id));
    assert forall other :: 0 <= other < |w.flights| && other != id ==> v.flights[other] == w.flights[other];
  }

  /** No leak: once nothing is live or waiting for its `Evict`, the map is empty. */
  lemma NoLeak<T>(steps: seq<Step<T>>)
    requires Play(steps).Some?
    requires forall id :: 0 <= id < |Play(steps).value.flights| ==> Play(steps).value.flights[id].evicted
    ensures Play(steps).value.entries == map[]
  {
    PlayHolds(steps);
    var w := Play(steps).value;
    assert forall key :: key in w.entries ==> w.entries[key].id < |w.flights|;
  }

  /** What is not evicted can still be: it is live, or its `Evict` may run now. */
  lemma EvictComes<T>(steps: seq<Step<T>>, id: FlightId)
    requires Play(steps).Some? && id < |Play(steps).value.flights|
    requires !Play(steps).value.flights[id].evicted
    ensures var w := Play(steps).value;
            w.flights[id].Live() || MayStep(w, Step.Evict(id))
    ensures var f := Play(steps).value.flights[id];
            !f.phase.Completed? && !f.phase.Poisoned?
  {
    PlayHolds(steps);
  }

  /** Shared, made once: `make` runs at most once per flight, and every two values handed
      out by one flight are the same, whoever still holds it. */
  lemma OneRunOneValue<T>(steps: seq<Step<T>>)
    requires Play(steps).Some?
    ensures var w := Play(steps).value;
            && (forall id :: 0 <= id < |w.flights| ==> w.flights[id].makes <= 1)
            && (forall i, j ::
                  0 <= i < |w.delivered| && 0 <= j < |w.delivered| && w.delivered[i].0 == w.delivered[j].0 ==>
                  w.delivered[i].1 == w.delivered[j].1)
  {
    PlayHolds(steps);
    var w := Play(steps).value;
    forall i, j | 0 <= i < |w.delivered| && 0 <= j < |w.delivered| && w.delivered[i].0 == w.delivered[j].0
      ensures w.delivered[i].1 == w.delivered[j].1
    {
      assert w.flights[w.delivered[i].0].phase == Completed(w.delivered[i].1);
      assert w.flights[w.delivered[j].0].phase == Completed(w.delivered[j].1);
    }
  }

  /** How a flight may change: never lent to another question or another leader, never
      losing a value it has published, never coming back to life. */
  ghost predicate Endures<T>(f: Flight<T>, g: Flight<T>) {
    && g.key == f.key && g.leader == f.leader
    && (f.phase.Completed? ==> g.phase == f.phase)
    && (g.Live() ==> f.Live())
  }

  lemma StepEndures<T>(w: World<T>, step: Step<T>, id: FlightId)
    requires Inv(w) && MayStep(w, step) && id < |w.flights|
    ensures id < |Next(w, step).flights| && Endures(w.flights[id], Next(w, step).flights[id])
  {
  }

  /** However the run goes on. */
  lemma {:induction false} FlightsEndure<T>(steps: seq<Step<T>>, more: seq<Step<T>>, id: FlightId)
    requires Play(steps).Some? && Play(steps + more).Some? && id < |Play(steps).value.flights|
    ensures id < |Play(steps + more).value.flights|
    ensures Endures(Play(steps).value.flights[id], Play(steps + more).value.flights[id])
    decreases |more|
  {
    if more == [] {
      assert steps + more == steps;
    } else {
      var init := more[..|more| - 1];
      assert (steps + more)[..|steps + more| - 1] == steps + init;
      FlightsEndure(steps, init, id);
      PlayHolds(steps + init);
      StepEndures(Play(steps + init).value, more[|more| - 1], id);
    }
  }

  // What a schedule makes of a flight

  lemma PlayPush<T>(steps: seq<Step<T>>, step: Step<T>)
    requires Play(steps).Some? && MayStep(Play(steps).value, step)
    ensures Play(steps + [step]) == Some(Next(Play(steps).value, step))
  {
    assert (steps + [step])[..|steps|] == steps;
  }

  /** The steps that have befallen a flight, read off its state: each of its phases says
      exactly which of them are in the schedule, and with which value. */
  ghost predicate Tells<T(!new)>(f: Flight<T>, id: FlightId, steps: seq<Step<T>>) {
    && (f.phase.Unpolled? <==> FirstPoll(id) !in steps)
    && (forall v :: Return(id, v) in steps <==> f.phase == Returning(v) || f.phase == Completed(v))
    && (Panic(id) in steps <==> f.phase.Unwinding? || f.phase.Poisoned?)
    && (Publish(id) in steps <==> f.phase.Completed? || f.phase.Poisoned?)
    && (Step.Evict(id) in steps <==> f.evicted)
  }

  /** No step is about a flight not made yet. */
  ghost predicate Known<T(!new)>(w: World<T>, steps: seq<Step<T>>) {
    forall step :: step in steps && !step.Join? ==> step.id < |w.flights|
  }

  lemma JoinTells<T(!new)>(w: World<T>, steps: seq<Step<T>>, step: Step<T>, id: FlightId)
    requires Known(w, steps) && step.Join?
    requires id < |w.flights| ==> Tells(w.flights[id], id, steps)
    requires id < |Next(w, step).flights|
    ensures Tells(Next(w, step).flights[id], id, steps + [step])
  {
    assert forall s :: s in steps + [step] <==> s in steps || s == step;
  }

  lemma StepTells<T(!new)>(w: World<T>, steps: seq<Step<T>>, step: Step<T>, id: FlightId)
    requires Inv(w) && Known(w, steps) && MayStep(w, step)
    requires id < |w.flights| ==> Tells(w.flights[id], id, steps)
    requires id < |Next(w, step).flights|
    ensures Tells(Next(w, step).flights[id], id, steps + [step])
  {
    if step.Join? {
      JoinTells(w, steps, step, id);
    } else {
      hide LiveAreMapped, MappedAreUnevicted, HandedOut, Known, EvictMap, Joined;
      assert forall s :: s in steps + [step] <==> s in steps || s == step;
    }
  }

  lemma {:induction false} ScheduleTells<T(!new)>(steps: seq<Step<T>>)
    requires Play(steps).Some?
    ensures Known(Play(steps).value, steps)
    ensures forall id :: 0 <= id < |Play(steps).value.flights| ==> Tells(Play(steps).value.flights[id], id, steps)
  {
    if steps != [] {
      var sofar, step := steps[..|steps| - 1], steps[|steps| - 1];
      assert steps == sofar + [step];
      ScheduleTells(sofar);
      PlayHolds(sofar);
      var w := Play(sofar).value;
      forall id: nat | id < |Play(steps).value.flights| ensures Tells(Play(steps).value.flights[id], id, steps) {
        StepTells(w, sofar, step, id);
      }
    }
  }

  /** The handles of a flight that a schedule leaves: one for each join that was handed the
      flight and each clone, less those dropped and those that delivered. */
  function Holders<T(!new)>(steps: seq<Step<T>>, id: FlightId): int
    requires Play(steps).Some?
  {
    if steps == [] then 0
    else
      var sofar, step := steps[..|steps| - 1], steps[|steps| - 1];
      Holders(sofar, id) +
      if step.Join? then (if Joined(Play(sofar).value, step.key, step.me).1 == id then 1 else 0)
      else if step == Clone(id) then 1
      else if step == DropHandle(id) || step == Deliver(id) then -1
      else 0
  }

  lemma {:induction false} HandlesAreHeld<T(!new)>(steps: seq<Step<T>>, id: FlightId)
    requires Play(steps).Some?
    ensures Holders(steps, id) == if id < |Play(steps).value.flights| then Play(steps).value.flights[id].handles else 0
  {
    if steps != [] {
      HandlesAreHeld(steps[..|steps| - 1], id);
    }
  }

  /** A delivery hands out the value the flight's run returned, and every delivered value is
      one that a run returned. */
  lemma DeliveriesAreReturns<T(!new)>(steps: seq<Step<T>>)
    requires Play(steps).Some?
    ensures var w := Play(steps).value;
            && (forall id, v :: (id, v) in w.delivered ==> Return(id, v) in steps)
            && (forall id: nat, v ::
                  Return(id, v) in steps && Publish(id) in steps && id < |w.flights| && w.flights[id].handles > 0 ==>
                  MayStep(w, Deliver(id)) && Next(w, Deliver(id)).delivered == w.delivered + [(id, v)])
  {
    ScheduleTells(steps);
    PlayHolds(steps);
    var w := Play(steps).value;
    forall id, v | (id, v) in w.delivered ensures Return(id, v) in steps {
      var i :| 0 <= i < |w.delivered| && w.delivered[i] == (id, v);
      assert w.flights[id].phase == Completed(v);
    }
  }

  /** Whenever a flight's run is under way and someone holds it, it may return, and then its
      value reaches the holder with nothing in the way. */
  lemma RunServes<T>(steps: seq<Step<T>>, id: FlightId, v: T)
    requires Play(steps).Some? && id < |Play(steps).value.flights|
    requires Play(steps).value.flights[id].phase.Running? && Play(steps).value.flights[id].handles > 0
    ensures var after := Play(steps + [Return(id, v)] + [Step.Evict(id)] + [Publish(id)] + [Deliver(id)]);
            after.Some? && after.value.delivered == Play(steps).value.delivered + [(id, v)]
  {
    PlayHolds(steps);
    PlayPush(steps, Return(id, v));
    PlayPush(steps + [Return(id, v)], Step.Evict(id));
    PlayPush(steps + [Return(id, v)] + [Step.Evict(id)], Publish(id));
    PlayPush(steps + [Return(id, v)] + [Step.Evict(id)] + [Publish(id)], Deliver(id));
  }

  /** A held flight never polled may be polled, and then its run is under way. */
  lemma PollStarts<T>(steps: seq<Step<T>>, id: FlightId)
    requires Play(steps).Some? && id < |Play(steps).value.flights|
    requires Play(steps).value.flights[id].phase.Unpolled? && Play(steps).value.flights[id].handles > 0
    ensures var after := Play(steps + [FirstPoll(id)]);
            && after.Some? && id < |after.value.flights|
            && after.value.flights[id] == Play(steps).value.flights[id].(phase := Running, makes := 1)
  {
    PlayHolds(steps);
    PlayPush(steps, FirstPoll(id));
  }

  /** A run that panics leaves the map without its entry and serves no one. */
  lemma PanicClears<T>(steps: seq<Step<T>>, id: FlightId)
    requires Play(steps).Some? && id < |Play(steps).value.flights|
    requires Play(steps).value.flights[id].phase.Running? && Play(steps).value.flights[id].handles > 0
    ensures var after := Play(steps + [Panic(id)] + [Step.Evict(id)] + [Publish(id)]);
            && after.Some? && after.value.delivered == Play(steps).value.delivered
            && id < |after.value.flights| && after.value.flights[id].phase.Poisoned?
            && forall key :: key in after.value.entries ==> after.value.entries[key].id != id
  {
    PlayHolds(steps);
    PlayPush(steps, Panic(id));
    PlayPush(steps + [Panic(id)], Step.Evict(id));
    PlayPush(steps + [Panic(id)] + [Step.Evict(id)], Publish(id));
    PlayHolds(steps + [Panic(id)] + [Step.Evict(id)] + [Publish(id)]);
  }

  /** A held flight can be shared further, and let go unless it is in its last poll; when
      the last holder of one lets go before its run is over, its entry goes with it. */
  lemma HangUpClears<T>(steps: seq<Step<T>>, id: FlightId)
    requires Play(steps).Some? && id < |Play(steps).value.flights|
    requires Play(steps).value.flights[id].handles > 0
    ensures MayStep(Play(steps).value, Clone(id))
    ensures !Play(steps).value.flights[id].phase.InLastPoll() ==> MayStep(Play(steps).value, DropHandle(id))
    ensures var f := Play(steps).value.flights[id];
            f.handles == 1 && (f.phase.Unpolled? || f.phase.Running?) ==>
              var after := Play(steps + [DropHandle(id)] + [Step.Evict(id)]);
              after.Some? && forall key :: key in after.value.entries ==> after.value.entries[key].id != id
  {
    PlayHolds(steps);
    var f := Play(steps).value.flights[id];
    if f.handles == 1 && (f.phase.Unpolled? || f.phase.Running?) {
      PlayPush(steps, DropHandle(id));
      PlayPush(steps + [DropHandle(id)], Step.Evict(id));
      PlayHolds(steps + [DropHandle(id)] + [Step.Evict(id)]);
    }
  }

  // The two locked sections as the source writes them

  class Flights {
    var inflight: map<Key, Entry>
    var ids: FlightId

    constructor ()
      ensures inflight == map[] && ids == 0
    {
      inflight, ids := map[], 0;
    }

    /** What the map and the counter are in a world of flights. */
    predicate Shows<T(!new)>(w: World<T>)
      reads this
    {
      inflight == w.entries && ids == |w.flights|
    }

    /** `strong` is what an upgrade would find. */
    method Join<T(!new)>(key: Key, me: RequestId, strong: seq<nat>, ghost w: World<T>)
      returns (id: FlightId, role: Role)
      requires Shows(w) && MappedAreUnevicted(w) && strong == Strong(w)
      modifies this
      ensures Shows(Joined(w, key, me).0)
      ensures id == Joined(w, key, me).1 && role == Joined(w, key, me).2
    {
      if key in inflight && strong[inflight[key].id] > 0 {
        return inflight[key].id, Follower(inflight[key].leader);
      }
      id := ids;
      ids := ids + 1;
      inflight := inflight[key := Entry(id, me)];
      role := Leader;
    }

    method DropEvict<T(!new)>(key: Key, id: FlightId, ghost w: World<T>)
      requires Shows(w) && MayStep(w, Step.Evict(id)) && w.flights[id].key == key
      modifies this
      ensures Shows(Next(w, Step.Evict(id)))
    {
      if key in inflight && inflight[key].id == id {
        inflight := inflight - {key};
      }
    }
  }
}
