# A model of the RPC proxy, with proofs

The proxy takes JSON-RPC requests, orders its upstreams into a chain, and serves each
request by walking the chain or by racing it with hedges. It counts what happens, ranks
the upstreams by those counts, and shares one upstream call among identical requests
that are in flight together. This project models those protocols in Dafny 4.11 and proves
what they promise, over every schedule, every log and every input. `dafny verify
dfyconfig.toml` checks the whole project.

| file | what it models |
|---|---|
| `Upstreams.dfy` | upstreams, call outcomes, which failures are retryable |
| `Hedge.dfy`, `HedgeTiming.dfy` | the hedged race as a step machine and as its loop; the race against a clock |
| `Walk.dfy` | the sequential walk, and the race with a quiet timer as a refinement of it |
| `Dispatch.dfy`, `Jobs.dfy` | any number of requests in flight, droppable at every await, and the records they leave |
| `Ledger.dfy` | what those records come to on the observer's counters |
| `Attempts.dfy` | the guard that records an attempt however it ends |
| `SingleFlight.dfy` | joining, evicting and sharing flights, step by atomic step |
| `Sharing.dfy` | flights keyed by the question asked, and what their callers are served |
| `Metrics.dfy`, `Observer.dfy` | the log of records and what is measured on it; the incremental counters |
| `Scores.dfy`, `Window.dfy` | differences of snapshots, scores, histograms; the ring of past snapshots |
| `Ranking.dfy`, `Deciders.dfy` | the refreshers and the order of the chain |
| `Json.dfy`, `CanonicalKey.dfy`, `Envelope.dfy` | JSON values and their sorted form; the text the dedup key is hashed from; swapping ids |
| `Config.dfy` | placeholder expansion and validation of the settings |

Reading the model:

- Code that loops over mutable state is a method (`Hedge.Race`, `Walk.WalkChain`,
  `Config.ExpandStr`, the classes); what it computes is a function, and the theorems are
  lemmas about that function.
- A race is nondeterministic in the source: which call completes next, and whether the
  timer beats it, is not up to the proxy. A schedule is a sequence of events, and a claim
  about every legal sequence is a claim about every schedule. A call is *launched* when
  its future is pushed and *begun* when that future is first polled; it can be dropped in
  between.
- The counters are specified against a log of records: `Total(log, metric)` sums a metric
  over a log, and each counter is proved to be the total of one metric.

One statement one might expect is false of the code: an unscored incumbent alone does not
lose the head (`Ranking.UnscoredHeadMayStay`); some challenger must be scored, and
`Ranking.HeadMoves` gives the exact condition.

When a reply cannot be re-addressed is an assumption rather than a result: the envelope
borrows its keys from the body, and the JSON library is taken to refuse to lend a key that
is written with an escape. What is proved is what survives when it can be
(`Envelope.OnlyTheIdChanges`).

The attempts a request reports are its launches. A launched call that is dropped before
its first poll is no attempt on its upstream, so the attempts begun on an upstream are at
most the launches (`Dispatch.AttemptsAreRecordedOnce`).

## Model

| member | source | states |
|---|---|---|
| Upstreams.RetryableMeans | src/upstream/call.rs:71-80 | a call passes its request on exactly when it ended unreachable, in a failed read, in status 429 or 500 to 599, or in an rpc error marked retryable |
| Hedge.Race | src/proxy/hedge.rs:36-117 | the loop terminates and returns what the step machine returns on the schedule its nondeterministic picks spell out: an answer some started call gave, or the failure of one, a retryable failure only if every upstream up to the limit failed retryably, no upstream only at limit zero; wins never exceed hedges |
| Hedge.Reachable | src/proxy/hedge.rs:45-116 | in every reachable state launched indices are exactly 0..next, split without overlap into in flight and completed, each completed once; next never passes the limit; one explained cause per launch |
| Hedge.StepHolds | src/proxy/hedge.rs:61-116 | every event keeps that invariant |
| Hedge.NeverGivesUpEarly | src/proxy/hedge.rs:61-101 | a reported retryable failure means every upstream up to the limit was tried and failed retryably, the last to complete reported; an answer or final failure is the first to complete; no upstream exactly when the limit is zero |
| Hedge.CompletionDecides | src/proxy/hedge.rs:74-102 | a completed call ends the race at once unless its outcome passes the request on; then it starts the next upstream as its own failover, or, with none left to start, ends the race only as the last in flight |
| Hedge.FailoversFollowCompletions | src/proxy/hedge.rs:94-101 | over every schedule the n-th failover cites the n-th call to complete, and none is missing while there is more to start |
| Walk.RaceEndsWhere | src/proxy/hedge.rs:61-101 | a returned race passed over each completion before the last; the last settled it, or every upstream up to the limit passed the request on |
| Hedge.HedgesOvertakeTheWaiting | src/proxy/hedge.rs:103-114 | when the timer may fire the newest call is still in flight, so a hedge never overtakes an upstream that already completed |
| Hedge.EveryPassLaunchesOne | src/proxy/hedge.rs:61-114 | a pass that leaves something to start and does not return begins exactly one call, a first poll none |
| Hedge.PassesProgress | src/proxy/hedge.rs:61-114 | each pass lowers 2*(limit-next) plus the number in flight |
| Hedge.AlwaysSomethingToDo | src/proxy/hedge.rs:62-74 | until it returns the race has a call in flight, each such call may be polled or complete in any order, and the timer may fire while there is more to start |
| Hedge.RaceEnds | src/proxy/hedge.rs:61-116 | a race has at most 2*limit-1 passes and limit first polls |
| HedgeTiming.AlwaysOnTime | src/proxy/hedge.rs:70-114 | on an idealised clock index i is launched no later than the summed hedge delays of the indices before it, in every reachable state |
| HedgeTiming.NeverOverdue | src/proxy/hedge.rs:70-114 | until it returns, no timer and no call is overdue, so the clock never keeps a race from going on |
| HedgeTiming.TimerIsReady | src/proxy/hedge.rs:70-103 | the timer fires when the newest call has been in flight for its own hedge delay, unless another call must end first |
| HedgeTiming.RaceIsPrompt | src/proxy/hedge.rs:61-114 | with calls of at most T nothing happens after the summed delays of all but the last upstream plus T, a schedule has at most 3*limit-1 events, and one that has not returned has an event that may happen next |
| HedgeTiming.RaceReturnsInTime | src/proxy/hedge.rs:61-114 | so however far a clocked race has come it goes on to return within that bound |
| HedgeTiming.StopsOnlyByReturning | src/proxy/hedge.rs:61-114 | and one that cannot go on has returned, within that bound |
| Walk.WalkChain | src/proxy/mod.rs:228-277 | the loop returns the ending, the tried prefix and the failover records given by the first decisive outcome, and takes the calls plus the pauses between them |
| Walk.WalkEndsWhere | src/proxy/mod.rs:233-276 | the walk goes on exactly past the outcomes that pass a request on, tries everyone up to the limit when all do and only the first when the first does not, and ends with what the last one tried gave it |
| Walk.WalkIsPrompt | src/proxy/mod.rs:233-269 | with calls of at most T the walk returns within limit*T plus (limit-1) pauses |
| Walk.QuietRaceIsTheWalk | src/proxy/hedge.rs:61-116 | for every oracle of outcomes and every schedule without a timer event, the race reports exactly what the walk reports: ending, tried prefix, failovers in order |
| Jobs.WalkJobsWalk | src/proxy/mod.rs:197-300 | durations aside, a sequential request that ends has told the observer, for each try of the walk, the attempt with its outcome, a failover unless it was the last, and finally the request; a write under hedging the same for one call |
| Jobs.RaceJobsRace | src/proxy/mod.rs:302-342 | durations aside, a hedged request that ends has told, record by record, what its schedule makes of the race: the records of each event, the abandoned calls, a hedge win, the request |
| Jobs.RaceAccountTells | src/proxy/mod.rs:302-342 | in that account the attempts are the completed calls in completion order with their outcomes, then one abandonment per call begun and not completed; failovers and hedges are the causes of the launches in launch order; a win is told exactly when a hedge won |
| Jobs.QuietJobsAgree | src/proxy/mod.rs:197-216 | durations aside, a hedged request whose timer stays quiet leaves the very records a sequential one leaves |
| Jobs.Serve | src/proxy/mod.rs:197-277 | the walk with its guards, failover records and request record leaves that same account with the observer |
| Dispatch.AttemptsAreAccountedFor | src/proxy/mod.rs:197-216 | over any number of concurrent requests at any moment, attempts of finished requests equal requests that tried someone plus failovers plus hedges, less a surplus: all calls but the first of each request running or dropped, and one more if it is, or was dropped, asleep between calls |
| Ledger.CountersAddUp | src/observer/mod.rs:162-215 | the same law between the sums of the observer's own request, failover and hedge counters, in whatever order they are listed, for chains of distinct upstreams of the fleet |
| Ledger.AcceptedChainsAreKnown | src/config.rs:241-243 | with accepted settings every chain cut from a rearrangement of the upstreams is such a chain |
| Dispatch.WinsNeverExceedHedges | src/proxy/mod.rs:324-332 | for every ordered pair, at any moment, hedge wins never exceed hedges started |
| Dispatch.AttemptsAreRecordedOnce | src/proxy/attempt.rs:14-62 | attempts recorded on an upstream plus those still armed equal the attempts begun there, at most the launches; once all is quiet the rendered attempt count is the number begun |
| Dispatch.ObserverShows | src/observer/mod.rs:162-172 | the same read off the observer's own counters |
| Dispatch.RequestsGoOn | src/proxy/mod.rs:197-342 | a request that is not over may be dropped at that moment, and has a move of its own to make |
| Dispatch.DropsAbandon | src/proxy/attempt.rs:37-44 | dropping a race records one abandonment for each armed guard, with the time of its own call, and nothing else |
| Dispatch.GoInOrder | src/proxy/mod.rs:197-342 | every move of a request, being dropped included, keeps its announced calls one for each launch but the first, its attempts one for each begun call, and its hedge wins within its hedges |
| Attempts.TryOnce | src/proxy/attempt.rs:46-62 | an attempt leaves exactly one record: its outcome when the call returns, an abandonment when the future is dropped at the await |
| Attempts.Attempt.Start | src/proxy/attempt.rs:22-29 | the guard starts armed |
| Attempts.Attempt.Finish | src/proxy/attempt.rs:31-34 | finishing disarms the guard and records the outcome, and dropping it afterwards adds nothing |
| Attempts.Attempt.Drop | src/proxy/attempt.rs:37-44 | an armed guard records one abandonment with the elapsed time, a disarmed one nothing |
| SingleFlight.PlayHolds | src/proxy/singleflight/mod.rs:45-80 | in every interleaving of join, poll, return, panic, evict, publish, clone and drop steps, a held flight whose evict has not fired is exactly what its key maps to, and every entry belongs to such an unevicted flight |
| SingleFlight.StepHolds | src/proxy/singleflight/evict.rs:41-51 | each atomic step keeps that invariant, in the gap between the last handle and its evict too |
| SingleFlight.OneLiveFlightPerKey | src/proxy/singleflight/mod.rs:45-80 | each key has at most one live flight |
| SingleFlight.JoinIsRight | src/proxy/singleflight/mod.rs:45-80 | a join follows exactly when its key has a live flight, which it is handed with its true leader; otherwise it leads a new one; it is never handed a completed flight |
| SingleFlight.EvictSparesOthers | src/proxy/singleflight/evict.rs:41-51 | an evict removes its own entry or nothing, and every other live flight stays mapped |
| SingleFlight.NoLeak | src/proxy/singleflight/evict.rs:35-51 | once every evict has fired the map is empty |
| SingleFlight.EvictComes | src/proxy/singleflight/evict.rs:35-51 | a flight not yet evicted is live or may be evicted now, on success, panic and hang-up alike, and has not published |
| SingleFlight.OneRunOneValue | src/proxy/singleflight/mod.rs:63-68 | a flight calls make at most once, and all values it hands out are the same |
| SingleFlight.ScheduleTells | src/proxy/singleflight/mod.rs:63-68 | over every schedule a flight's phase says exactly which of first poll, return with which value, panic, publish and evict have happened to it |
| SingleFlight.HandlesAreHeld | src/proxy/singleflight/mod.rs:45-80 | a flight's handles are the joins handed it and the clones, less those dropped and those that delivered |
| SingleFlight.RunServes | src/proxy/singleflight/mod.rs:63-68 | from any schedule in which a held flight's run is under way, returning a value, evicting, publishing and delivering are all possible and hand out exactly that value |
| SingleFlight.DeliveriesAreReturns | src/proxy/singleflight/mod.rs:63-68 | every delivered value is one the flight's run returned, and a returned and published value can be delivered to every holder |
| SingleFlight.PollStarts | src/proxy/singleflight/mod.rs:63-68 | a held flight never polled can be polled, and its run is then under way |
| SingleFlight.PanicClears | src/proxy/singleflight/evict.rs:41-51 | a panicking run leaves no entry and serves no one |
| SingleFlight.HangUpClears | src/proxy/singleflight/evict.rs:35-51 | when the last holder lets go before the run is over, its entry goes with it |
| SingleFlight.FlightsEndure | src/proxy/singleflight/mod.rs:45-80 | however a schedule goes on, a flight keeps its key, leader and published value, and never comes back to life |
| SingleFlight.Flights.Join | src/proxy/singleflight/mod.rs:36-81 | the locked section does to the map and the id counter what the protocol's join step does |
| SingleFlight.Flights.DropEvict | src/proxy/singleflight/evict.rs:41-51 | the locked section does what the protocol's evict step does |
| Metrics.Bucket | src/observer/mod.rs:265-268 | the first bound at or above the value, or one past the last |
| Metrics.Axis.Bounds | src/observer/snapshot.rs:10-29 | the ladder of bounds is strictly increasing |
| Observer.MetricsObserver.constructor | src/observer/mod.rs:56-83 | a new observer shows the empty log |
| Observer.MetricsObserver.RecordAttempt | src/observer/mod.rs:217-270 | the counters after it are those of the log with the attempt added: of a tracked upstream, the one counter its outcome names, written out for the six shapes of outcome, the retryable ones if it passes the request on, the duration and its bucket; nothing else moves |
| Observer.MetricsObserver.RecordAbandoned | src/observer/mod.rs:246-270 | likewise, abandoned alone among the outcomes |
| Observer.MetricsObserver.RecordHedge | src/observer/mod.rs:162-166 | likewise for a hedge |
| Observer.MetricsObserver.RecordHedgeWin | src/observer/mod.rs:168-172 | likewise for a hedge win |
| Observer.MetricsObserver.RecordFailover | src/observer/mod.rs:178-184 | likewise for a failover |
| Observer.MetricsObserver.RecordCoalesced | src/observer/mod.rs:174-176 | likewise for a coalesced request |
| Observer.MetricsObserver.RecordRequest | src/observer/mod.rs:186-215 | likewise for a request, an unknown method filed under other |
| Observer.SnapshotsAreTotals | src/observer/mod.rs:217-270 | for every log the incremental counters of every tracked upstream, buckets included, are the totals of the log |
| Observer.RequestsAreTotals | src/observer/mod.rs:186-215 | likewise for the counters of every method |
| Observer.HedgesAreTotals | src/observer/mod.rs:162-172 | likewise for every ordered pair of distinct upstreams, and no other pair is kept |
| Observer.FailoversAreTotals | src/observer/mod.rs:174-184 | likewise for failovers and coalesced requests |
| Scores.DiffCounts | src/observer/snapshot.rs:203-219 | a difference of two snapshots counts the records between them |
| Scores.OutcomesPartition | src/observer/mod.rs:222-243 | every attempt adds one to exactly one of seven outcomes, and retryable failures never exceed the errors |
| Scores.ScoreIsTheMeanCost | src/observer/snapshot.rs:184-199 | for every log the latency score is the floor of the mean cost: durations of all attempts that are not retryable failures, abandoned included, plus the penalty per retryable failure |
| Scores.ScoreIsBetween | src/observer/snapshot.rs:184-199 | the score lies between the least and greatest charged cost |
| Scores.FailingFastNeverPays | src/observer/snapshot.rs:184-199 | turning an attempt cheaper than the penalty into a retryable failure never lowers the score |
| Scores.Cumulative | src/observer/prometheus.rs:350-356 | the running totals are the sums of the prefixes |
| Scores.BucketsAreCumulative | src/observer/prometheus.rs:297-311 | for every log the rendered bucket i counts exactly the observations of at most bound i |
| Scores.HistogramIsExact | src/observer/prometheus.rs:297-348 | rendered buckets never decrease, and the count exceeds the last by exactly the observations past every bound |
| Scores.AttemptCountIsExact | src/observer/prometheus.rs:358-360 | the sum of the seven outcomes is the number of attempts recorded |
| Scores.RequestCountIsExact | src/observer/prometheus.rs:326-348 | answered plus failed is the number of observations of both request histograms |
| Window.Window.constructor | src/decider/window.rs:17-23 | a new ring holds its seed |
| Window.Window.Oldest | src/decider/window.rs:25-29 | the snapshot min(history, ticks) back from the next, never missing |
| Window.Window.TicksHeld | src/decider/window.rs:31-33 | min(history, ticks), at least one |
| Window.Window.Span | src/decider/window.rs:35-37 | that width times the tick |
| Window.Window.IsFull | src/decider/window.rs:43-45 | exactly when the history has reached the wanted ticks |
| Window.Window.Advance | src/decider/window.rs:47-52 | the ring goes on holding the last snapshots of the full history, in order |
| Window.DiffsTelescope | src/observer/snapshot.rs:203-219 | the difference of the last and first of growing snapshots is the sum of the steps between |
| Window.RefreshSeesTheWindow | src/decider/least_latency/refresher.rs:39-67 | what a refresh scores is the sum of the per-tick differences of the last min(k, ticks) ticks |
| Window.SnapshotsGrow | src/observer/mod.rs:217-270 | no counter shrinks as a log goes on |
| Ranking.SortIsStable | src/decider/least_latency/refresher.rs:91 | sorting permutes, ascends and keeps entries of equal key in order |
| Ranking.StableSortIsUnique | src/decider/least_latency/refresher.rs:91 | there is only one stable sort, so the library's is this one |
| Ranking.RefreshRearranges | src/decider/least_latency/refresher.rs:59-110 | a refresh is a permutation of the old ranking, and upstreams sharing a key, the unscored among them, keep their old order |
| Ranking.RefreshOrders | src/decider/least_latency/refresher.rs:143-147 | scored before unscored, the scored by score with the incumbent discounted |
| Ranking.RankedByScore | src/decider/least_latency/refresher.rs:79-91 | over the scores themselves: any two challengers stand in the order of their scores, the old head where its score times one minus the margin puts it, the unscored last |
| Ranking.LevelKeepTheirOrder | src/decider/least_latency/refresher.rs:91 | upstreams with equal scores, or both without one, keep their old order |
| Ranking.NewHeadIsBest | src/decider/least_latency/refresher.rs:79-91 | a head that takes over has the least score of all challengers |
| Ranking.HeadMoves | src/decider/least_latency/refresher.rs:55-110 | the head changes exactly when some challenger is scored and the incumbent is unscored or beaten by strictly more than the margin |
| Ranking.UnscoredHeadMayStay | src/decider/least_latency/refresher.rs:69-82 | with no one scored an unscored incumbent keeps the head |
| Ranking.KeysAreOrdered | src/decider/least_latency/refresher.rs:143-147 | the order of sort keys is total, transitive and antisymmetric |
| Ranking.HeadHolds | src/decider/least_latency/refresher.rs:39-111 | over any sequence of refreshes the head keeps its place throughout if and only if no challenger ever crosses that line |
| Ranking.HeadHoldsOverLogs | src/decider/least_latency/refresher.rs:39-111 | over any growing log cut into ticks, refresh k scores the records of the last min(k, ticks) ticks, and the head keeps its place throughout if and only if in no such window a challenger's score crosses the line |
| Ranking.RunKeepsMembers | src/decider/least_latency/refresher.rs:107-109 | over any sequence of refreshes no upstream is lost, gained or repeated |
| Ranking.LatencyScoring | src/decider/least_latency/refresher.rs:64-82 | the score ranked by is the mean cost over the window for a tracked upstream with enough calls, and none otherwise |
| Ranking.ErrorScoring | src/decider/prefer_least_errors/refresher.rs:63-78 | the score ranked by is the share of errors among the attempts answered in the window, abandoned ones aside, if there are enough, and none otherwise |
| Ranking.RatesCompareExactly | src/decider/prefer_least_errors/refresher.rs:137-141 | error rates compare as the fractions errors over answered, by cross-multiplication |
| Ranking.Refresher.Refresh | src/decider/prefer_least_errors/refresher.rs:38-105 | the stored ranking is the old one refreshed by the scores of the window that ends now, a permutation of it whose head moves exactly when it should; the window slides on by one |
| Ranking.Refresher.Run | src/decider/least_latency/refresher.rs:26-37 | the loop of ticks stores the ranking that these refreshes make of the history of snapshots |
| Deciders.LeastLatency.Decide | src/decider/least_latency/mod.rs:83-98 | the first min(max, n) of: the upstream whose turn it is, request/20 mod (n-1) places behind the first challenger on every twentieth request and the head on the others, then the rest in their order; the counter moves by one |
| Deciders.PromotingPermutes | src/decider/least_latency/mod.rs:90-97 | moving an upstream to the front permutes the ranking and keeps the others in their order |
| Deciders.ProbesAreFair | src/decider/least_latency/mod.rs:83-98 | while the ranking stands, any 20*(n-1) consecutive requests are led by each challenger once and by the head 19*(n-1) times |
| Deciders.RoundRobin.Decide | src/decider/round_robin.rs:14-21 | position p holds upstream (turn + p) mod n, for the first min(max, n) positions; a call that can return nothing takes no turn |
| Deciders.TurnsAreFair | src/decider/round_robin.rs:14-21 | any n consecutive calls put each upstream in each position once |
| Json.NormMeans | src/jsonrpc/mod.rs:161-169 | the sorted form has each key once, in order, and the same meaning, the last of repeated keys winning |
| Json.NormIsCanonical | src/jsonrpc/mod.rs:161-169 | two bodies have the same sorted form exactly when they are equal as JSON values |
| CanonicalKey.TextIsUnique | src/jsonrpc/mod.rs:177-180 | the compact text of a value is no prefix of another's: text and what follows determine both (RFC 8259 sections 2 to 7) |
| CanonicalKey.DedupKey | src/jsonrpc/mod.rs:163-194 | what is fed to the hasher, piece by piece, is the text of the method then of the params, for a known read only |
| CanonicalKey.KeyIsTheQuestion | src/jsonrpc/mod.rs:163-181 | read off the members called method and params, two accepted bodies feed the same text exactly when their methods are equal and their params are equal as JSON values, object order aside and missing params read as an empty list (JSON-RPC 2.0 section 4.2); a body is accepted exactly when it asks a known read |
| CanonicalKey.MissingParamsAreEmpty | src/jsonrpc/mod.rs:167-169 | a request without params feeds the text of the same request with an empty list of them |
| Envelope.Readdress | src/jsonrpc/mod.rs:224-228 | the loop computes the re-addressed body |
| Envelope.OnlyTheIdChanges | src/jsonrpc/mod.rs:205-228 | when the keys can be borrowed, every other member keeps its raw text, reading the id back gives the caller's own, and members come out in key order |
| Envelope.IdIsRead | src/jsonrpc/mod.rs:205-222 | a request's id is the raw text of its one member called id; a body without one, or with several, has none |
| Envelope.EscapedKeyIsRefused | src/jsonrpc/mod.rs:224-228 | one key the library does not lend is enough for a reply not to be re-addressed |
| Envelope.LastIdWins | src/jsonrpc/mod.rs:224-228 | re-addressing twice is re-addressing with the second id |
| Envelope.Coalesce | src/proxy/mod.rs:158-194 | a follower gets the shared answer under its own id and is counted, or, when that cannot be done, its own answer uncounted; the leader gets the flight's answer as it is |
| Sharing.ServedTheirOwn | src/proxy/mod.rs:158-194 | over every interleaving, what a caller is served from a flight was made by the flight's leader for a body asking the caller's own question; a follower gets it under its own id with every other member unchanged, or else its own answer |
| Config.ExpandStr | src/config.rs:181-209 | one pass fills the template the text reads as, values standing unscanned, or names the first variable without a value |
| Config.ParseIsFaithful | src/config.rs:181-209 | reading a text as a template loses nothing and leaves no closed placeholder in the tail |
| Config.ParseIsUnique | src/config.rs:181-209 | and there is only one template to read it as |
| Config.FilledMeans | src/config.rs:194-202 | a text can be filled exactly when each name is blank or has a value that is not empty; each placeholder then gives way to its value, a blank one to itself |
| Config.TextIsSpliced | src/config.rs:185-199 | a template reads as its text with a dollar sign and a pair of braces around each name |
| Config.CleanMeansExpanded | src/config.rs:236-240 | expanded text without an opening left, as validation demands, had a named variable with a value in every placeholder and none left open |
| Config.ValidateSettings | src/config.rs:211-273 | the loops report the first fault in the source's order |
| Config.ValidateCors | src/config.rs:275-296 | likewise for the origins, the wildcard standing alone |
| Config.CorsMeans | src/config.rs:275-296 | origins pass exactly when the wildcard stands alone, or is absent and each origin is acceptable and given once; an error names an origin or a mix of which it is true |
| Config.VerdictIsSo | src/config.rs:211-273 | a reported error is true of the settings, and for an upstream no earlier check fails on it and those before it are usable and apart |
| Config.AcceptedMeans | src/config.rs:211-273 | settings pass exactly when there are upstreams, no hedge delay is zero, the origins are the wildcard alone or acceptable and distinct, every upstream is usable, and no two share a label or a url |

## Left out

- HedgeTiming.RaceIsPrompt: the clock is idealised; a launched call is taken to be polled at once, a timer fires when it is due, and no step of the proxy takes time.
- Hedge.Race: the biased select is left open, so a completion and a due timer may come in either order; every claim holds for both orders.
- Jobs.Serve: no await is dropped in it; dropped guards are `Attempts.TryOnce` and the hang-ups of `Dispatch`, which record the same abandonment but are not joined by a method.
- Sharing.ServedTheirOwn: a delivered value is not tied to the handle it went through, only to its flight; that each run answers its leader's body is how flights are built and is stated as a condition on the schedule.
- Jobs.WalkJobsWalk: sending a write once is modelled as a walk capped at one call, which has the same ending, tried list and records.
- Observer.MetricsObserver.RecordAttempt: counters are unbounded; wrap-around of 64-bit counters, saturating products and the truncation of durations to microseconds are not modelled.
- Observer.SnapshotsAreTotals: snapshots are taken between records; one that straddles a record, field by field, is not modelled.
- Ranking.Refresher.Refresh: scores are exact fractions; rounding to nanoseconds or to floating point is not modelled, and the two refreshers, which differ only in the score, are one class with two policies. The library's sort is called as a function, justified by uniqueness of the stable sort.
- Deciders.ProbesAreFair: the ranking is held fixed over the requests counted; a refresh in between starts from another ranking.
- SingleFlight.Flights.Join: what the shared future does inside, the mutex and the allocator are assumed, and stated as atomic steps; that no caller code and no evict fires under the lock is built into those steps.
- CanonicalKey.DedupKey: the digest is opaque, so collisions of the 128-bit hash are not ruled out; what is proved is about the text fed to it. The list of idempotent methods is a parameter.
- CanonicalKey.KeyIsTheQuestion: the parse tree is what the JSON library reads from the bytes; a private marker key by which that library carries raw text inside an object is not modelled, and a body using one would be read as the value inside.
- CanonicalKey.TextIsUnique: number tokens are abstract; all that is assumed of them is their alphabet (RFC 8259 section 6).
- Envelope.Readdress: a body is already split into the raw members of its top-level object; reading bytes into members is the JSON library's work.
- Config.ValidateCors: whether one origin is acceptable is a parameter; the check itself leans on URI and header parsing.
- HTTP serving, CORS headers, connection pools, timeouts inside a call, the bounded body read and shutdown: input and output; a call is an oracle giving an outcome and a duration.
- Tracing, rendering to the Prometheus text format, dashboards, loading YAML and deprecated keys: plumbing.
- The shape of a body (single, batch, malformed), method labels, the HTTP status of a failure: read off one match each.
- The decider that prefers the fewest errors takes the first of its ranking; its ranking loop is modelled, that prefix is not.
