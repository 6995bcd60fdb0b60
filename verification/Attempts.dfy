/** The guard around one upstream call (src/proxy/attempt.rs). */
module Attempts {
  import opened Upstreams
  import opened Metrics
  import opened Observer

  class Attempt {
    const observer: MetricsObserver
    const upstream: UpstreamId
    const started: nat
    var armed: bool

    constructor Start(observer: MetricsObserver, upstream: UpstreamId, now: nat)
      ensures this.observer == observer && this.upstream == upstream && started == now && armed
    {
      this.observer, this.upstream, started, armed := observer, upstream, now, true;
    }

    /** Consumes the guard, so it is dropped here, disarmed. */
    method Finish(outcome: CallResult, micros: nat)
      requires armed && observer.Valid()
      modifies this, observer
      ensures !armed && observer.Valid()
      ensures observer.log == old(observer.log) + [Record.Attempt(upstream, Measured(outcome, micros))]
    {
      armed := false;
      observer.RecordAttempt(upstream, outcome, micros);
      Drop(started);
    }

    method Drop(now: nat)
      requires observer.Valid() && started <= now
      modifies observer
      ensures observer.Valid()
      ensures observer.log ==
        old(observer.log) + if armed then [Record.Attempt(upstream, Dropped(now - started))] else []
    {
      if armed {
        observer.RecordAbandoned(upstream, now - started);
      }
    }
  }

  /** One attempt from its first poll.  `returned` is what the upstream came back with, or
      None when the future is dropped at the await, at time `until`. */
  method TryOnce(observer: MetricsObserver, upstream: UpstreamId, now: nat, until: nat, returned: Option<CallResult>)
    returns (result: Option<CallResult>)
    requires observer.Valid() && now <= until
    modifies observer
    ensures observer.Valid() && result == returned
    ensures observer.log == old(observer.log) +
      [Attempt(upstream, if returned.Some? then Measured(returned.value, until - now) else Dropped(until - now))]
  {
    var inFlight := new Attempt.Start(observer, upstream, now);
    match returned {
      case Some(outcome) => inFlight.Finish(outcome, until - now);
      case None => inFlight.Drop(until);
    }
    result := returned;
  }
}
