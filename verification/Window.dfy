/** The ring of past snapshots a refresh compares against (src/decider/window.rs). */
module Window {
  import opened Upstreams
  import opened Metrics
  import opened Observer
  import opened Scores

  /** How many of `n` snapshots a window of `ticks` holds; never none. */
  function Held(n: nat, ticks: nat): nat {
    Min(n, if ticks == 0 then 1 else ticks)
  }

  class Window<S> {
    var baselines: seq<S>
    const ticks: nat
    const tick: nat
    /** Every snapshot ever taken, the seed first. */
    ghost var history: seq<S>

    ghost predicate Valid()
      reads this
    {
      && history != []
      && baselines == history[|history| - Held(|history|, ticks)..]
    }

    constructor (seed: S, ticks: nat, tick: nat)
      ensures Valid() && history == [seed] && this.ticks == ticks && this.tick == tick
    {
      baselines := [seed];
      this.ticks, this.tick := ticks, tick;
      history := [seed];
    }

    /** With k snapshots taken so far, the one `min(k, ticks)` back from the next. */
    function Oldest(): (s: S)
      requires Valid()
      reads this
      ensures s == history[|history| - Held(|history|, ticks)]
      ensures s == history[if 0 < ticks < |history| then |history| - ticks else if ticks == 0 then |history| - 1 else 0]
    {
      baselines[0]
    }

    function TicksHeld(): (n: nat)
      requires Valid()
      reads this
      ensures n == Held(|history|, ticks)
      ensures 0 < n <= |history| && n <= (if ticks == 0 then 1 else ticks)
      ensures n == |history| || n == (if ticks == 0 then 1 else ticks)
    {
      |baselines|
    }

    function Span(): (span: nat)
      requires Valid()
      reads this
      ensures span == tick * Held(|history|, ticks)
    {
      tick * TicksHeld()
    }

    predicate IsFull()
      requires Valid()
      reads this
      ensures IsFull() <==> |history| >= ticks
    {
      TicksHeld() >= ticks
    }

    method Advance(current: S)
      requires Valid()
      modifies this
      ensures Valid() && history == old(history) + [current]
    {
      baselines := baselines + [current];
      if |baselines| > ticks {
        baselines := baselines[1..];
      }
      history := history + [current];
    }
  }

  // A difference over the window is the sum of the differences per tick

  /** Counters only grow. */
  predicate Grows(a: Snapshot, b: Snapshot) {
    && a.success <= b.success && a.unreachable <= b.unreachable && a.readFailed <= b.readFailed
    && a.errorStatus <= b.errorStatus && a.rpcError <= b.rpcError && a.rpcCallerFault <= b.rpcCallerFault
    && a.abandoned <= b.abandoned && a.retryableFailures <= b.retryableFailures
    && a.micros <= b.micros && a.retryableMicros <= b.retryableMicros
  }

  lemma SnapshotsGrow(log: seq<Record>, more: seq<Record>, u: UpstreamId)
    ensures Grows(SnapshotOf(log, u), SnapshotOf(log + more, u))
  {
    hide Total, Buckets;
    forall m {
      TotalConcat(log, more, m);
    }
  }

  function Plus(a: Diff, b: Diff): Diff {
    Diff(a.success + b.success, a.unreachable + b.unreachable, a.readFailed + b.readFailed,
         a.errorStatus + b.errorStatus, a.rpcError + b.rpcError, a.rpcCallerFault + b.rpcCallerFault,
         a.abandoned + b.abandoned, a.retryableFailures + b.retryableFailures,
         a.micros + b.micros, a.retryableMicros + b.retryableMicros)
  }

  function PerTick(taken: seq<Snapshot>): Diff
    requires taken != []
  {
    var n := |taken|;
    if n == 1 then Diff(0, 0, 0, 0, 0, 0, 0, 0, 0, 0)
    else Plus(PerTick(taken[..n - 1]), DiffOf(taken[n - 1], taken[n - 2]))
  }

  lemma {:induction false} DiffsTelescope(taken: seq<Snapshot>)
    requires taken != []
    requires forall i :: 0 < i < |taken| ==> Grows(taken[i - 1], taken[i])
    ensures Grows(taken[0], taken[|taken| - 1])
    ensures DiffOf(taken[|taken| - 1], taken[0]) == PerTick(taken)
  {
    var n := |taken|;
    if n > 1 {
      DiffsTelescope(taken[..n - 1]);
      assert Grows(taken[n - 2], taken[n - 1]);
    }
  }

  /** What a refresh sees: the difference between now and the oldest snapshot held is the
      sum of the per-tick differences of the last `min(k, ticks)` ticks. */
  lemma RefreshSeesTheWindow(window: Window<Snapshot>, current: Snapshot)
    requires window.Valid()
    requires forall i :: 0 < i < |window.history| ==> Grows(window.history[i - 1], window.history[i])
    requires Grows(window.history[|window.history| - 1], current)
    ensures var taken := window.history + [current];
            DiffOf(current, window.Oldest()) == PerTick(taken[|taken| - 1 - window.TicksHeld()..])
  {
    var taken := window.history + [current];
    var recent := taken[|taken| - 1 - window.TicksHeld()..];
    forall i | 0 < i < |recent| ensures Grows(recent[i - 1], recent[i]) {
      var k := |taken| - 1 - window.TicksHeld() + i;
      assert recent[i] == taken[k] && recent[i - 1] == taken[k - 1];
    }
    DiffsTelescope(recent);
  }
}
