# Verified model of the delivery, routing and scaling core

This project models the stateful parts of a Python service platform in Dafny and proves what
they keep over whole runs:

- **Outbox and events.** `create_user` writes a user and an outbox row in one transaction;
  any number of relays pick due rows under row locks, publish them and commit or lose the
  transaction; consumers deduplicate by event id. `Outbox` holds the rows and what one attempt
  does to a row, `RelayRuns` the interleaved relays, `OutboxRelay` one relay with its loop,
  `Events`, `LocalDelivery` and `MixedHandlers` the in-process bus and handlers with and without
  a deduplication store, `UserEvents` the path from creating a user to handling its event.
- **Client-side load balancing.** `Balancer` holds the balancer itself; `Rotation`,
  `FailoverProofs`, `RepeatedUrls`, `Traffic` and `HealthHistory` what its choices, requests,
  probes and health records mean, and `InFlight` requests and probes that overlap.
- **Autoscaling.** `Policy` (streaks, cooldown, bounds), `Metrics` (rates), `Controller`
  (one tick and whole runs), `Exposition` (parsing the scraped text), `Extraction` (the
  totals of one service in it) and `Scraping` (from the texts of all targets to the policy).
- **Service registry and idempotent replay.** `Registry` with lazy purging, `Discovery` which
  feeds it to the balancer, and the `Idempotency` middleware.

Objects that the program updates in place are classes whose methods are proved against a
function of the old state; interleavings are step machines whose runs are sequences of states.
Clock readings, publisher and upstream outcomes, generated ids, commit results and scraped
answers are inputs, unconstrained unless a statement says otherwise. Time is an integer.

## Where the code differs from its documentation

Each point names the lemma with a concrete instance and the one with the exact condition.

- `docs/standards/load-balancing.md:37` speaks of one trial request after the cooldown. Until a
  reply is recorded the code lets any number through (`Rotation.SecondTrial`), exactly when the
  upstream is available (`Rotation.TrialsAreUnlimited`). The bound on traffic is therefore about
  requests that follow one another.
- A request can give up on an upstream that would answer. This needs a pool with a repeated url,
  which the constructor accepts and `refresh` does not produce (`RepeatedUrls.RepeatsThatMatter`);
  it happens exactly when a url available at the start is listed for the first time behind a
  repeated one (`RepeatedUrls.MissesExactlyLateUrls`).
- "Healthy implies no `down_since`" holds for operations one after another
  (`HealthHistory.HealthOverRuns`) but not when they overlap (`InFlight.HealthyCanHaveDownTime`):
  a probe that loses its connection writes into a record that a request has healed meanwhile,
  and that is exactly when it fails (`InFlight.DownTimeMeansRace`, `InFlight.RaceNeedsSuccess`).
- The consumer's docstring promises at-least-once handling. `guarded` marks the event done even if
  the handler raised (`events.py:126-128`), so a message can be sent although a handler never
  completed it (`LocalDelivery.SentCanGoUnhandled`); it completes exactly when its one invocation
  does not raise (`LocalDelivery.SentIsCompletedUnlessRaised`, `UserEvents.HandledUnlessRaised`).
  For handlers without a store the promise is kept (`MixedHandlers.StorelessAtLeastOnce`).
- The error rate can be negative (`Metrics.RateCanBeNegative`), and a tick can show the policy one
  when a target does not answer (`Controller.NegativeRateIsObserved`): exactly when errors were lost
  between two totals that gained requests (`Metrics.RatesAreRates`,
  `Controller.WhenObservedRateIsNegative`).
- The idempotency middleware promises the first result of a repeated request. Requests for two
  different paths can share a key, so that one gets the other's response
  (`Idempotency.TwoPathsOneKey`): exactly when one path goes on, behind a colon, into the other's
  key (`Idempotency.KeysCoincide`), and never for paths without colons
  (`Idempotency.PlainPathsKeepApart`).
- Not every bad line of a scraped text is skipped: some raise out of the parser and end the tick
  before anything changes (`Exposition.OneBadLineRaises`), exactly those with an opening brace and
  no closing one behind it, or with no opening brace and no space (`Exposition.WhenTextsRaise`).
- The policy's docstring calls it pure; `decide` updates the streaks and the action time in place,
  and is modelled that way.

## Model

| member | source | states |
|---|---|---|
| `Outbox.StagingKeepsContent` | packages/kernel/kernel/outbox.py:151-171 | staging and relaying keep name, aggregate and payload of an event, and its trace exactly if its parts are 32, 16 and 2 small hexadecimal digits; its id, time and source are those of the row |
| `Outbox.EnvelopeIsStable` | packages/kernel/kernel/outbox.py:151-171 | whatever attempts were recorded, a row is published as the same envelope with the same event id |
| `RelayRuns.StepKeepsInv` | packages/kernel/kernel/outbox.py:88-141 | every insert, select, publish, commit or lost transaction of any relay keeps: held rows disjoint and due, rows equal to what their committed attempts say, bus copies conserved, retry budget respected |
| `RelayRuns.RunKeepsInv` | packages/kernel/kernel/outbox.py:88-141 | that invariant holds in every state of every run of any number of relays |
| `RelayRuns.HeldRowsAreExclusive` | packages/kernel/kernel/outbox.py:92-109 | in every run two live transactions never hold the same row, and held rows are pending |
| `RelayRuns.TerminalRowsAreFrozen` | packages/kernel/kernel/outbox.py:92-128 | once sent or failed a row never changes again and no later select picks it |
| `RelayRuns.CopiesOnTheBus` | packages/kernel/kernel/outbox.py:111-141 | a message has one committed successful publish if it is sent and none otherwise; all its other copies come from lost transactions or the one transaction still holding it |
| `RelayRuns.MessageLifecycle` | packages/kernel/kernel/outbox.py:111-128 | attempts, status, sent time and next attempt time of a row are determined by its committed attempts: pending means at most 7, sent 1 to 8 with only the last successful, failed exactly 8 failures; the next attempt time is that of the last attempt that left the row pending, with backoffs of 4, 8, 16, 32, 64, 128 and 128 seconds |
| `RelayRuns.BackoffBound` | packages/kernel/kernel/outbox.py:119-127 | the clocks of a message's first and eighth committed attempt are at least 380 seconds apart, across relays with any clocks, and each gap is at least its backoff |
| `RelayRuns.RetriesAreBounded` | packages/kernel/kernel/outbox.py:88-141 | N messages take at most 8N committed attempts, and each commit spends the remaining budget by at least the number of rows it held |
| `OutboxRelay.Relay.Oldest` | packages/kernel/kernel/outbox.py:92-101 | the oldest due row nobody holds that is not yet picked, or nothing exactly when there is none |
| `OutboxRelay.Relay.SelectDue` | packages/kernel/kernel/outbox.py:92-109 | the rows picked are due, unlocked and distinct, in creation order, at most a batch, all of them if fewer, and none left out is older |
| `OutboxRelay.Relay.Settle` | packages/kernel/kernel/outbox.py:113-128 | the assignments made after a publish leave the row the attempt function describes |
| `OutboxRelay.Relay.PublishRows` | packages/kernel/kernel/outbox.py:110-128 | the loop publishes the selected rows in order and accounts for each, whatever the publisher answers |
| `OutboxRelay.LoopIsBatch` | packages/kernel/kernel/outbox.py:110-128 | the loop makes exactly one publish per selected row, in order, of the envelope the row had when selected; its view of the table is the replay of these publishes and its count the number of successes |
| `OutboxRelay.Relay.RunOnce` | packages/kernel/kernel/outbox.py:88-141 | one call selects, publishes each selected row once, and commits or loses all of it; it returns the number of accepted publishes and sets the gauge to the number of rows still pending |
| `OutboxRelay.BatchIsASchedule` | packages/kernel/kernel/outbox.py:88-141 | an uninterrupted call is a schedule of the interleaved machine, with the same effect whether it commits or is lost |
| `OutboxRelay.LostBatchIsASchedule` | packages/kernel/kernel/outbox.py:102-141 | a batch may be lost after any number of its publishes, and then leaves exactly these on the bus and the table as it was |
| `OutboxRelay.DrainStep` | packages/kernel/kernel/outbox.py:92-141 | one more successful call extends the published prefix of a backlog by the next batch |
| `OutboxRelay.DrainBound` | packages/kernel/kernel/outbox.py:92-141 | k calls with a succeeding publisher publish exactly the first min(k * batch, D) of D due rows in creation order, once each, and the gauge shows the remainder |
| `Events.InMemoryIdempotencyStore.Get` | packages/kernel/kernel/idempotency.py:50-51 | the stored value, or nothing |
| `Events.InMemoryIdempotencyStore.Put` | packages/kernel/kernel/idempotency.py:53-54 | sets one key and no other |
| `Events.InMemoryIdempotencyStore.Acquire` | packages/kernel/kernel/idempotency.py:56-60 | succeeds exactly for a key that is absent, and then marks it |
| `Events.EventKeyInjective` | packages/kernel/kernel/events.py:117 | under one event name different event ids have different keys |
| `Events.LocalEventBus.Subscribe` | packages/kernel/kernel/events.py:33-34 | appends a handler for one name and leaves other names alone |
| `Events.LocalEventBus.Publish` | packages/kernel/kernel/events.py:36-38 | handlers run in order until one raises, each at most once per key, each marking its key done even if it raises |
| `MixedHandlers.PublishMix` | packages/kernel/kernel/events.py:36-38 | for handlers with stores of their own, shared ones or none: the invocations of a publish are, in order, those of the handlers with no store or whose store lacks the key and is not used in front of them, up to and including the first of these that raises; their stores then say "done", all else is as it was |
| `MixedHandlers.StorelessAlwaysInvoked` | packages/kernel/kernel/events.py:114-128 | also for an event it has seen, a handler without a store is invoked once by a publish unless it is behind the handler that makes it fail, and completes unless it is that handler |
| `MixedHandlers.SecondPublish` | packages/kernel/kernel/events.py:114-128 | publishing again after a success invokes exactly the handlers without a store, up to the first of them that raises, and changes no store |
| `MixedHandlers.StorelessAtLeastOnce` | packages/kernel/kernel/events.py:100-128 | over every run of the relays a handler without a store has completed each sent message at least once, at least as often as it was published successfully, and is never invoked more often than it was published |
| `LocalDelivery.PublishEffect` | packages/kernel/kernel/events.py:114-128 | a publish invokes a handler exactly when it uses up the handler's key, never frees a key, and on success has used up every handler's key |
| `LocalDelivery.FailureUsesAKey` | packages/kernel/kernel/events.py:114-128 | a failed publish uses up the key of a raising handler that still had it |
| `LocalDelivery.SharedStoreSilencesTheRest` | packages/kernel/kernel/events.py:117-120 | handlers sharing a store share the key: once it is used none of them is invoked and the publish succeeds |
| `LocalDelivery.InProcessDelivery` | packages/kernel/kernel/events.py:115-128 | in every run with d handlers, each with its own store, a message fails at most d times, handlers are invoked at most once for it, and exactly once when it is sent |
| `LocalDelivery.FailedNeedsEightHandlers` | packages/kernel/kernel/outbox.py:111-128 | a run that gives up on a message exists if and only if there are at least eight handlers |
| `LocalDelivery.CompletesUnlessRaised` | packages/kernel/kernel/events.py:114-128 | in every run an invoked handler was invoked in one step, and completed the message if and only if it did not raise then |
| `LocalDelivery.SentIsCompletedUnlessRaised` | packages/kernel/kernel/events.py:114-128 | for a sent message each handler completed it once if its one invocation did not raise, and never otherwise |
| `LocalDelivery.SentCanGoUnhandled` | packages/kernel/kernel/events.py:117-128 | a run in which a message ends sent and some handler never completed it exists if and only if there is a handler |
| `UserEvents.UserService.CreateUser` | services/service-template/app/domain/user_service.py:28-60 | a known email is refused and nothing changes; otherwise the user and a pending row announcing it are added together, exactly when the commit goes through |
| `UserEvents.CreateUserIsASchedule` | services/service-template/app/domain/user_service.py:30-58 | check, flush, stage and commit of one session, uninterrupted, add the user and its row together and change nothing else |
| `UserEvents.EventsBelongToUsers` | services/service-template/app/domain/user_service.py:35-58 | in every history users and outbox rows correspond one to one, each row announcing its user with all five fields, and every event on the bus announces a committed user |
| `UserEvents.HandlerRunsAtMostOnce` | packages/kernel/kernel/events.py:114-128 | the guarded handler is invoked at most once per event id however often it is published or redelivered, only for published events, and has been invoked after any copy was received |
| `UserEvents.HandledUnlessRaised` | packages/kernel/kernel/events.py:121-128 | in every history an event is handled to the end exactly when its one invocation ended without raising; after one that raised it never is, however often it is delivered again |
| `UserEvents.HistoryOnlyGrows` | services/service-template/app/domain/user_service.py:58 | committed users, published events and invocations are never taken back |
| `Balancer.UpstreamBalancer.constructor` | services/gateway/gateway_app/balancer.py:24-41 | every url starts healthy with a record, the cursor at the front |
| `Balancer.UpstreamBalancer.Refresh` | services/gateway/gateway_app/balancer.py:47-60 | the pool becomes the first occurrences of the new urls, known urls keep their record, new ones start healthy, the cursor restarts; an empty list changes nothing |
| `Balancer.Dedup` | services/gateway/gateway_app/balancer.py:51 | deduplication keeps exactly the given urls, each once |
| `Balancer.ScanFinds` | services/gateway/gateway_app/balancer.py:65-76 | the scan stops at the first url of the cyclic order that is available at the clock reading taken for it, or finds none |
| `Balancer.UpstreamBalancer.NextUrl` | services/gateway/gateway_app/balancer.py:72-77 | the loop over the shared cursor picks the first url in cyclic order that is available at its own clock reading and leaves the cursor behind it, or back where it was if there is none |
| `Balancer.UpstreamBalancer.RecordSuccess` | services/gateway/gateway_app/balancer.py:79-83 | the record of one url becomes that of a fresh one |
| `Balancer.UpstreamBalancer.RecordFailure` | services/gateway/gateway_app/balancer.py:85-91 | one more failure; at the threshold the url goes down now |
| `Balancer.UpstreamBalancer.Request` | services/gateway/gateway_app/balancer.py:93-127 | the failover loop computes the failover function: pool left, upstreams tried in order, and who answered or that it raised |
| `Balancer.UpstreamBalancer.ProbeAll` | services/gateway/gateway_app/balancer.py:129-140 | probes heal or push back unhealthy urls in order and leave healthy ones alone |
| `Rotation.NextTakesTheHead` | services/gateway/gateway_app/balancer.py:72-77 | a choice raises if and only if nothing is available; otherwise it takes the head of the available urls in cyclic order and moves it to the back |
| `Rotation.FairRotation` | services/gateway/gateway_app/balancer.py:65-77 | while the m available urls stay the same, choices run through exactly those in cyclic order, and after k choices each was taken floor(k/m) or one more times |
| `Rotation.TrialsAreUnlimited` | services/gateway/gateway_app/balancer.py:65-77 | while no reply is recorded scans choose an upstream any number of times if and only if it is available, unhealthy or not |
| `Rotation.SecondTrial` | services/gateway/gateway_app/balancer.py:69-70 | an upstream that is down and is chosen twice in a row after its cooldown |
| `FailoverProofs.EachTriedOnce` | services/gateway/gateway_app/balancer.py:102-127 | for any pool no upstream is tried twice in a request, and all tried but the answering one failed |
| `FailoverProofs.FailoverIsComplete` | services/gateway/gateway_app/balancer.py:93-127 | over distinct urls a request raises only after every upstream available at its start was tried and failed; if it returns, so were those in front of the answering one in cyclic order, and all of them were tried if any url behind it was |
| `FailoverProofs.SomeoneAnswers` | services/gateway/gateway_app/balancer.py:93-127 | if an upstream available at the start would answer below 500 the request succeeds |
| `RepeatedUrls.RaisesOnlyAfterAll` | services/gateway/gateway_app/balancer.py:93-127 | for any pool without a late url a request raises only after every upstream available at its start was tried and failed |
| `RepeatedUrls.MissesExactlyLateUrls` | services/gateway/gateway_app/balancer.py:93-127 | for any pool and health a request can give up on an available upstream that would answer if and only if such a url is listed for the first time behind a repeated usable one |
| `RepeatedUrls.FreshPoolMisses` | services/gateway/gateway_app/balancer.py:33-41 | for a pool as constructed this depends on the list alone: some url occurs for the first time behind a repeated one |
| `RepeatedUrls.DistinctPoolIsComplete` | services/gateway/gateway_app/balancer.py:51 | for distinct urls, as after a refresh, it never happens, whatever the health records |
| `RepeatedUrls.RepeatsThatMatter` | services/gateway/gateway_app/balancer.py:104-107 | an instance of each: a repeat with a new url behind it, and a repeat with none |
| `Traffic.FailoverEffect` | services/gateway/gateway_app/balancer.py:93-127 | a request sends to a url only while it is available and changes its record only by recording that reply |
| `Traffic.ProbeEffect` | services/gateway/gateway_app/balancer.py:129-140 | a probe that gets no good answer never heals, and can only set a later down time of an unhealthy url |
| `Traffic.DeadUpstreamTraffic` | services/gateway/gateway_app/balancer.py:65-91 | in any run of requests, probes and refreshes one after another, a pooled url that never answers well is sent at most threshold + T / cooldown requests in any window of T seconds |
| `HealthHistory.HealthRefinesHistory` | services/gateway/gateway_app/balancer.py:79-91 | a record is a function of its events: failures since the last success, healthy below the threshold, and its down time that of the last failure at the threshold or lost probe since then; unhealthy has a down time, and healthy exactly when a lost probe was recorded |
| `HealthHistory.AnyRecordMayStart` | services/gateway/gateway_app/balancer.py:79-91 | every record that past replies can leave is a possible start of a run without success |
| `HealthHistory.PoolRefinesHistory` | services/gateway/gateway_app/balancer.py:47-60 | every pooled url is as healthy as its own history since it joined the pool says, across refreshes |
| `HealthHistory.RequestIsLogged` | services/gateway/gateway_app/balancer.py:93-127 | a request records exactly one success or failure per attempt, in order |
| `HealthHistory.ProbesAreLogged` | services/gateway/gateway_app/balancer.py:129-140 | a probe round records exactly what its replies say about the urls that were unhealthy, in pool order |
| `HealthHistory.RunsAreLogged` | services/gateway/gateway_app/balancer.py:47-140 | in every run of requests, probes and refreshes the records are the summary of the log of that run's own replies |
| `HealthHistory.HealthOverRuns` | services/gateway/gateway_app/balancer.py:47-140 | in every such run from a fresh pool `fails` is the number of failures recorded since the url's last success or since it joined, healthy means below the threshold, a record has a down time exactly when it is unhealthy, and the url is taken exactly below the threshold or a cooldown after that down time |
| `HealthHistory.DeadUpstreamTrafficFromAnyState` | services/gateway/gateway_app/balancer.py:65-140 | the bound on traffic to a dead upstream holds from any reachable state on: after any operations from a fresh pool, whatever they recorded |
| `InFlight.HealthInFlight` | services/gateway/gateway_app/balancer.py:79-140 | with requests and probes overlapping in any way the same holds, except that a healthy record may have a down time |
| `InFlight.DownTimeMeansRace` | services/gateway/gateway_app/balancer.py:129-140 | a healthy record has a down time exactly when a lost probe was recorded for it while it was healthy, with no success or removal since |
| `InFlight.ProbesAreOvertaken` | services/gateway/gateway_app/balancer.py:131-140 | a probe waits for a healthy upstream only if a success was recorded for it while the probe was waiting |
| `InFlight.RaceNeedsSuccess` | services/gateway/gateway_app/balancer.py:131-140 | so a lost probe is recorded for a healthy upstream only after a success overtook it |
| `InFlight.HealthyCanHaveDownTime` | services/gateway/gateway_app/balancer.py:131-140 | a reachable state with a healthy record that has a down time |
| `InFlight.RequestIsASchedule` | services/gateway/gateway_app/balancer.py:93-127 | a request that nothing comes between is one schedule of the overlapping steps, with the same effect |
| `InFlight.ProbesAreASchedule` | services/gateway/gateway_app/balancer.py:129-140 | so is a round of probes |
| `Policy.PolicyState.Reset` | services/autoscaler/autoscaler/policy.py:27-29 | clears the streaks and keeps the action time |
| `Policy.PolicyState.DecideOn` | services/autoscaler/autoscaler/policy.py:32-71 | the updates made in place and the action returned are those of the policy function |
| `Policy.StateRefinesHistory` | services/autoscaler/autoscaler/policy.py:41-71 | streaks are the lengths of the trailing runs since the last action of samples with either excess and below the maximum, and of samples with neither excess, a low request rate and above the minimum; never both nonzero, both zero during a cooldown |
| `Policy.ActionsFireOnSustainedRuns` | services/autoscaler/autoscaler/policy.py:46-68 | an action fires exactly when its run reaches the sustain count outside the cooldown |
| `Policy.EitherExcessScalesUp` | services/autoscaler/autoscaler/policy.py:42-68 | with the cooldown over, replicas below the maximum and the run complete, a sample scales up if and only if its request rate or its error rate is above its limit; an idle one scales down if and only if neither is and the request rate is low |
| `Policy.ActionsAreSpaced` | services/autoscaler/autoscaler/policy.py:42-67 | on a monotone clock consecutive actions are at least one cooldown apart |
| `Policy.ActionsInWindow` | services/autoscaler/autoscaler/policy.py:42-67 | a window of T seconds holds at most T / cooldown + 1 actions |
| `Metrics.RatesAreRates` | services/autoscaler/autoscaler/metrics.py:51-61 | the request rate is never negative and the error rate never above 1; exactly when an error rate is negative, and exactly when it is the plain ratio |
| `Metrics.RatesAreExact` | services/autoscaler/autoscaler/metrics.py:51-61 | the rates computed are exactly these: 0 and 0 without a previous sample, a window or new requests; otherwise new requests per second, and the share of errors among the new requests, or 1 if more errors than requests are new |
| `Metrics.RateCanBeNegative` | services/autoscaler/autoscaler/metrics.py:56-61 | two samples with a negative error rate |
| `Metrics.RatesTelescope` | services/autoscaler/autoscaler/metrics.py:51-61 | while totals do not decrease, rate times window sums to last total minus first |
| `Metrics.ShareOfRequests` | services/autoscaler/autoscaler/metrics.py:56-61 | while no counter goes down the error rate lies between 0 and 1 and is the share of errors among the new requests, and 0 without any |
| `Controller.ScalingController.constructor` | services/autoscaler/autoscaler/main.py:28-34 | starts with the larger of target count and minimum, no previous sample, no streaks and no decisions |
| `Controller.ScalingController.Collect` | services/autoscaler/autoscaler/main.py:43-56 | totals over the targets that answered; raises exactly when some text could not be parsed |
| `Controller.TotalsFail` | services/autoscaler/autoscaler/main.py:43-56 | there are no totals exactly if some text could not be parsed, and they are 0 if no target answered |
| `Controller.TargetAddsSample` | services/autoscaler/autoscaler/main.py:43-56 | a target that answers adds exactly its sample, whichever target it is |
| `Controller.ScalingController.Tick` | services/autoscaler/autoscaler/main.py:36-90 | the whole new state of the controller for every outcome, and exactly when the tick raises |
| `Controller.ControllerRunsPolicy` | services/autoscaler/autoscaler/main.py:36-86 | over any run the streaks and decision counters are those of the policy on the observations that reached it |
| `Controller.ReplicasAreConserved` | services/autoscaler/autoscaler/main.py:81-90 | replicas equal the initial number plus applied ups minus applied downs, also when the scaler raises; at least the minimum, at most the maximum once there, and otherwise only falling |
| `Controller.ScalingIsDamped` | services/autoscaler/autoscaler/main.py:63-86 | on a monotone clock the scaler is called at most T / cooldown + 1 times in any window of T seconds |
| `Controller.ToldEveryRequest` | services/autoscaler/autoscaler/main.py:58-70 | while counters grow and scrapes succeed, the per-instance rates shown to the policy account for every request |
| `Controller.TicksShowRates` | services/autoscaler/autoscaler/main.py:36-70 | over any run a tick shows the policy nothing and changes nothing exactly if there are no targets or a text cannot be parsed, and otherwise its clock, the replicas, and the rates since the last tick that got totals, per instance, or 0 with no replicas |
| `Controller.NoNewRequestsNoRates` | services/autoscaler/autoscaler/main.py:58-70 | over any run a tick without new requests, without earlier totals, with smaller totals or without a window shows a request rate and an error rate of 0 |
| `Controller.WhenObservedRateIsNegative` | services/autoscaler/autoscaler/main.py:58-70 | a tick observes a negative error rate exactly when its totals gained requests and lost errors since the previous ones |
| `Controller.NegativeRateIsObserved` | services/autoscaler/autoscaler/main.py:43-70 | two ticks over two targets, one of which does not answer the second time, after which the policy is shown such a rate |
| `Registry.LocalServiceRegistry.Register` | packages/kernel/kernel/registry.py:61-62 | sets one instance's entry, keeping its place if it has one |
| `Registry.LocalServiceRegistry.Deregister` | packages/kernel/kernel/registry.py:64-65 | removes one instance's entry if there is one |
| `Registry.LocalServiceRegistry.List` | packages/kernel/kernel/registry.py:67-73 | purges exactly the expired entries of the service and returns the urls of the others |
| `Registry.ListAgreesWithHistory` | packages/kernel/kernel/registry.py:55-76 | despite purging, a listing holds, each once, exactly the instances whose last event is a register not older than its time to live |
| `Registry.ListedUrls` | packages/kernel/kernel/registry.py:67-73 | a url is listed if and only if a live instance last registered with it |
| `Registry.BucketsAreArranged` | packages/kernel/kernel/registry.py:55-76 | a service holds exactly the instances registered and since then neither deregistered nor purged, with their last url and expiry, in the order in which they came in: a register of a present one keeps its place |
| `Registry.ListingIsInOrder` | packages/kernel/kernel/registry.py:67-73 | a listing gives the urls of those that have not expired, in that order, on any clock |
| `Registry.HeartbeatsKeepListed` | packages/kernel/kernel/registry.py:61-73 | an instance whose registers come at most one time to live apart, with no deregister, is in every listing from the first of them up to one time to live after the last |
| `Registry.RunHeartbeat` | packages/kernel/kernel/registry.py:88-102 | the loop registers in each round in which the registry accepts it, and goes on after a failure |
| `Registry.BeatsAreSteady` | packages/kernel/kernel/registry.py:97-102 | a loop that never fails m times in a row registers at most one time to live apart if m periods fit into it |
| `Registry.HeartbeatLoopKeepsListed` | packages/kernel/kernel/registry.py:88-102 | so such an instance is in every listing although up to m - 1 heartbeats in a row fail |
| `Registry.SilenceRemoves` | packages/kernel/kernel/registry.py:67-73 | later than its time to live after its last heartbeat an instance is gone, and its url too unless another live instance has it |
| `Discovery.DiscoveryTick` | services/gateway/gateway_app/main.py:19-33 | one turn of the loop: the registry is purged and the balancer refreshed with a nonempty listing |
| `Discovery.DedupKeepsOrder` | services/gateway/gateway_app/balancer.py:51 | deduplication keeps the order of first occurrences |
| `Discovery.PoolFollowsRegistry` | services/gateway/gateway_app/main.py:25-33 | after a tick the pool is exactly the live urls, known ones with their health record and new ones healthy; with none live nothing changes, so the pool never becomes empty |
| `Discovery.CrashedInstanceLeaves` | services/gateway/gateway_app/main.py:25-33 | a crashed instance leaves at the first tick later than its time to live after its last heartbeat if another instance is live |
| `Idempotency.IdempotencyMiddleware.Handle` | packages/kernel/kernel/idempotency.py:92-139 | requests that are not POST, PUT or PATCH or have no key pass untouched, those with a stored record replay it, and the others reach the client unchanged while their records are stored under the key |
| `Idempotency.KeysCoincide` | packages/kernel/kernel/idempotency.py:76-77 | two requests to a service share a key exactly when verb, path and header agree, or one path goes on behind a colon into the other's header |
| `Idempotency.PlainPathsKeepApart` | packages/kernel/kernel/idempotency.py:76-77 | for paths without colons keys are shared only by requests with the same verb, path and header |
| `Idempotency.TwoPathsOneKey` | packages/kernel/kernel/idempotency.py:76-77 | two different paths with the same key |
| `Idempotency.RequestsAreNoEvents` | packages/kernel/kernel/idempotency.py:76-77 | no request shares a key with an event |
| `Idempotency.ContentTypeIsFirst` | packages/kernel/kernel/idempotency.py:142-146 | the content type recorded is the value of the first header whose name is "content-type" with A to Z made small, and "application/json" if there is none |
| `Idempotency.RecordsOfMessages` | packages/kernel/kernel/idempotency.py:119-139 | whatever the application sends, one record is written at each final body message and nowhere else: the body so far, and the status and content type of the last start message, or 200 and "application/json" if there was none |
| `Idempotency.ResponseIsRecordedOnce` | packages/kernel/kernel/idempotency.py:119-137 | for any chunking one record is written and holds the status, the concatenated body and the value of the first content type header |
| `Idempotency.ReplayGivesTheFirstResponse` | packages/kernel/kernel/idempotency.py:109-152 | after a complete response the key replays its status, the value of its first content type header and its JSON value, raising exactly when the body was not JSON; other keys are untouched |
| `Idempotency.LookupsReplay` | packages/kernel/kernel/idempotency.py:109-114 | under interleaving a lookup misses exactly when nothing was stored for the key before it, and otherwise replays the latest record |
| `Idempotency.OneWriterPerKey` | packages/kernel/kernel/idempotency.py:108-139 | without interleaved lookups all stores for a key are by one request |
| `Idempotency.RunsOncePerKey` | packages/kernel/kernel/idempotency.py:109-139 | one request after another, at most one lookup of a key runs the application |
| `Idempotency.ReplaysAgree` | packages/kernel/kernel/idempotency.py:109-114 | one request after another, all replays for a key give the same status, content type and JSON value |
| `Idempotency.HandleIsASchedule` | packages/kernel/kernel/idempotency.py:108-139 | a request that nothing comes between is a lookup followed by the stores of its records if it missed, with the effect of the middleware on the store |
| `Idempotency.SequentialReplay` | packages/kernel/kernel/idempotency.py:92-139 | for responses with one final message, one request after another, only the first request with a key runs the application; later ones load the record of its response, read off its messages, and replay status, content type and JSON value |
| `Exposition.ParsePrometheusText` | services/autoscaler/autoscaler/metrics.py:14-34 | the loop computes the line-by-line parse, including when it raises |
| `Exposition.RoundTrip` | services/autoscaler/autoscaler/metrics.py:14-34 | parsing a rendered exposition of samples, comments and blank lines gives exactly its samples, whatever braces, spaces or hashes their labels contain |
| `Exposition.WhenLinesRaise` | services/autoscaler/autoscaler/metrics.py:22-29 | exactly which lines make the parser raise instead of being skipped |
| `Exposition.WhenTextsRaise` | services/autoscaler/autoscaler/metrics.py:20-34 | parsing a text raises if and only if some line of it is such a line |
| `Exposition.OneBadLineRaises` | services/autoscaler/autoscaler/metrics.py:20-29 | a line that raises, whatever follows it |
| `Exposition.LinesMean` | services/autoscaler/autoscaler/metrics.py:20-33 | what any line gives, in terms of its parts without the spaces at their ends: nothing if it is blank, a comment or its value is no number, otherwise a sample, or it raises for want of such parts |
| `Exposition.LinesAreBetweenBreaks` | services/autoscaler/autoscaler/metrics.py:20 | the lines hold no line break and, with breaks between them, are the text |
| `Exposition.TextsHold` | services/autoscaler/autoscaler/metrics.py:14-34 | for any text that does not raise, the result holds for each name and labels the value of the last line that gives one, and nothing else |
| `Extraction.ExtractSample` | services/autoscaler/autoscaler/metrics.py:37-48 | the loop sums the request counters naming the service, and those with a server error, in whatever order the counters come |
| `Extraction.ServerErrorMeans` | services/autoscaler/autoscaler/metrics.py:46 | a counter is an error exactly if `status="5`, two digits and a quote stand at some place in its labels |
| `Extraction.OfServiceMeans` | services/autoscaler/autoscaler/metrics.py:41-44 | a counter belongs to the service exactly if `service="`, its name and a quote stand at some place in its labels |
| `Extraction.CounterAdds` | services/autoscaler/autoscaler/metrics.py:37-48 | each `http_requests_total` counter adds its value to the requests exactly if it belongs to the service, and to the errors exactly if it also is an error |
| `Extraction.NoCountersNoTotals` | services/autoscaler/autoscaler/metrics.py:39-48 | without such counters both totals are 0 |
| `Extraction.OtherMetricsAreIgnored` | services/autoscaler/autoscaler/metrics.py:39 | counters of other names do not matter |
| `Extraction.SumTakes` | services/autoscaler/autoscaler/metrics.py:42-48 | the totals do not depend on the order in which the counters are visited |
| `Extraction.ScrapeGivesTotals` | services/autoscaler/autoscaler/metrics.py:14-48 | parsing a rendered exposition and extracting gives the sums over exactly its samples of the service |
| `Extraction.ScrapesGiveFractions` | services/autoscaler/autoscaler/metrics.py:14-61 | end to end for any two texts that parse: if no counter goes down and new ones are not negative, the error rate is the fraction of errors among the new requests |
| `Extraction.CountersGiveFractions` | services/autoscaler/autoscaler/metrics.py:14-61 | the same for two rendered expositions, the second of which may have series the first does not |
| `Scraping.ObservedRateIsAFraction` | services/autoscaler/autoscaler/main.py:43-70 | when every target answers two ticks in a row and none of its counters goes down, the error rate shown to the policy is the fraction of errors among the new requests of all targets together |

## Left out

- The database engine: a table is a sequence of rows, select with lock is one step, a lost transaction restores the rows and the sessions' view is the table they selected from plus their own changes.
- `use_skip_locked=False` with several relays: exclusivity is not claimed for it.
- RabbitMQ, Redis, HTTP clients and `docker compose`: their answers are inputs; broker delivery is the receipt of any published event any number of times.
- A consumer that restarts between acquiring a key and marking it done: the key stays taken and the handler is not invoked again, so only "at most once" is stated.
- Times to live of keys in the idempotency store: the in-memory store ignores them too.
- A handler on the in-process bus that publishes again, and concurrent publishes of one event to one process.
- Rows whose payload or headers do not build an envelope: the call raises, which is a lost transaction of the interleaved machine.
- JSON, UTF-8 and number conversion: parameters, with the one law that a dumped record loads back; floats are reals, so infinities and not-a-number in scraped text are not covered.
- Refreshing the pool while a request or probe is in flight, where records are looked up by url after a wait.
- Traffic.DeadUpstreamTraffic: is about requests that follow one another, since concurrent ones all pass once the cooldown is over.
- FailoverProofs.FailoverIsComplete: is about distinct urls; `RepeatedUrls` says what remains of it for other pools.
- An application that raises in the middle of a response behind the idempotency middleware, header decoding, and requests that are not HTTP.
- Idempotency keys of different services that share one store: the statements about keys are within one service.
- Digits other than 0 to 9 in a status label, which the pattern of `extract_sample` also accepts.
- Timestamps after a sample's value: the round trip is about samples without them.
- Web framework wiring, configuration, logging, tracing, error tables, database read/write routing, migrations and deployment files: nothing to prove across functions.
