# Ferrum Edge: hot-path protocols and indexes in Dafny

Ferrum Edge's request path rests on small lock-free protocols, on indexes that are patched instead of rebuilt, and on one
canonical reading of the request path. This project models that core and proves what its comments promise.
`dafny verify dfyconfig.toml` checks all of it.

| file | what it models |
|---|---|
| `CircuitBreaker.dfy` | the packed-word circuit breaker: admission, probes, recording paths, reopen, close and release |
| `AdaptiveFence.dfy` | the generation fence of the adaptive concurrency limiter: staged commits, tracking-space rotation, permits, feedback |
| `AdaptiveLimit.dfy` | the limiter's counters: reservation, rollback, multiplicative backoff, recovery cohorts |
| `ConfigFreshness.dfy` | the stale-configuration latch of a data plane and its monotonic publication |
| `DeliveryLifecycle.dfy` | admission permits of observability delivery tasks |
| `ConsumerIndex.dfy` | the consumer credential index, built or patched |
| `ConfigDelta.dfy`, `PluginInvalidation.dfy` | snapshot differences and the proxies whose plugins must be rebuilt |
| `PolicyPath.dfy` | the canonical policy path |
| `DestinationLimiter.dfy`, `DialLanes.dfy`, `LaneKeys.dfy` | destination counters with eviction, dial lanes, flat lane keys |
| `Traces.dfy`, `Counting.dfy`, `Basics.dfy` | runs of one actor alone, counting table entries, shared types |

How the concurrent code is modelled (`CircuitBreaker`, `AdaptiveFence`, `AdaptiveLimit`, `ConfigFreshness`,
`DeliveryLifecycle`): every atomic load, store, read-modify-write and compare-exchange is one step of one actor, and a
section under one lock of a sharded map is one step. `Step` is total and deterministic given an `Action`, which names who
moves and carries what the code cannot control (clock readings, spurious compare-exchange failures, outcomes, whether a
runtime drops a task). `Run` folds any sequence of actions, so a lemma over every `acts` is a statement about every
interleaving, and a lemma over `acts[..i]` and `acts[..j]` about every pair of times of a run. Fields marked as history
never influence a step, except two that constrain the environment: `Writer.last` keeps a side's generations increasing and
`State.clock` keeps apply times non-decreasing. Lemmas named `...Alone` give the exact outcome of a call when nothing else
moves, as a `Path` of single steps. The indexes, the path decoder, the rebuild set and the limiters keep the source's
form: methods with loops and classes whose methods update their fields, each proved against a specification.

Generations and epochs are unbounded naturals. For the breaker's 32-bit generation, `CompareExchangeIsExact` says when a
compare-exchange of packed words decides the same as one of abstract words. Memory is sequentially consistent.

Two documented promises of the circuit breaker do not hold of the code as written.

- The deferred-outcome check (src/circuit_breaker.rs:66-74) is said to keep a stream from healing or reopening a
  half-open cycle it never probed. But the word is read in one step and acted on in later ones, between which an OPEN and
  the next HALF_OPEN cycle may be published. `DeferredRace` gives such a run, for every configuration in which some
  failure counts and for every outcome that can decide a cycle. `DeferredCheckIsExact` says when: exactly when an OPEN was
  published after the check. What the check does guarantee at the moment it is made is `EpochFence`.
- A failure that observes HALF_OPEN (src/circuit_breaker.rs:415-418 and 503-514) is said to be of the current cycle by
  construction, also if a sibling closes the cycle before it reopens the breaker. It fails in two ways. Without any race, a
  request admitted in CLOSED, or a probe of an earlier cycle, that observes HALF_OPEN reopens a cycle it never probed,
  because that branch does not ask whether the request is a probe or of which cycle (`StragglerReopens`). And a probe that
  observes its own cycle may be overtaken before it acts (`ReopenRace`). `ReopenIsExact` says when, for every such failure
  and whether it reopens HALF_OPEN or CLOSED: it is of the current cycle exactly when its request probed the cycle it
  observed and no OPEN was published after it looked.

Per configuration both promises hold in every run exactly when no failure counts, so that the breaker never opens:
`DeferredPromiseIff` and `ReopenPromiseIff`.

A delivery task that is over has its permit given back exactly once, by its completion or by the canceller that took its
entry, with one exception (`CompletionSettles`): if the runtime drops the task after the hand-off and before its first
poll, the guard that would remove the entry does not exist yet, and entry and permit stay until a cancellation sweeps
them. `UnpolledDropLeaks` gives the run.

## Model

| member | source | states |
|---|---|---|
| `CircuitBreaker.PackedFields` | src/circuit_breaker.rs:36-59 | the three fields read back from the packed word what was packed, the generation modulo 2^32 |
| `CircuitBreaker.CompareExchangeIsExact` | src/circuit_breaker.rs:40-59 | two packed words are equal exactly when the abstract words are, unless 2^32 opens lie between |
| `CircuitBreaker.MoveIsMonotone` | src/circuit_breaker.rs:159-165 | every step moves (generation, OPEN < HALF_OPEN < CLOSED) up or not at all, and raises the generation, by one, exactly when it publishes OPEN |
| `CircuitBreaker.MoveSlots` | src/circuit_breaker.rs:207-238 | the probe count moves only together with the stepping request's own claim on a slot, or drops |
| `CircuitBreaker.Reachable` | src/circuit_breaker.rs:129-569 | every interleaving keeps the breaker's invariant on the word, the probe count and every request |
| `CircuitBreaker.WordNeverGoesBack` | src/circuit_breaker.rs:453-475 | over every run the word never decreases and its generation rises by exactly the number of OPEN publications |
| `CircuitBreaker.AbandonedCycleStaysAbandoned` | src/circuit_breaker.rs:515-546 | a half-open cycle once left is never entered again, the rollback path included |
| `CircuitBreaker.EpochFence` | src/circuit_breaker.rs:838-849 | if the epoch captured before admission is current at a later time, a CLOSED admission has met only CLOSED since and a probe only its own cycle or the CLOSED it led to |
| `CircuitBreaker.ProbeCountIsBounded` | src/circuit_breaker.rs:147-186 | always: no probes counted outside HALF_OPEN, never more than the clamped limit, never more than the live probes of the current cycle, those that have not yet given their slot up |
| `CircuitBreaker.NeverWedges` | src/circuit_breaker.rs:129-238 | from every reachable state with the timeout elapsed and fewer live probes than the limit, an undisturbed newcomer is admitted, as a probe exactly when not CLOSED |
| `CircuitBreaker.FreeOnceRecorded` | src/circuit_breaker.rs:147-238 | when every probe of the current cycle has recorded its outcome no slot is taken, and with the timeout elapsed an undisturbed newcomer is admitted |
| `CircuitBreaker.OnlyProbesGiveBack` | src/circuit_breaker.rs:240-247 | over every run whoever takes the count of a half-open cycle down was admitted as a probe, takes it down by one and owes nothing afterwards |
| `CircuitBreaker.ReleaseAlone` | src/circuit_breaker.rs:553-569 | an undisturbed release takes one slot off the count, and nothing at zero |
| `CircuitBreaker.CountFailureAlone` | src/circuit_breaker.rs:420-500 | an undisturbed failure in CLOSED extends the streak by one and opens the breaker at the threshold |
| `CircuitBreaker.FailureAlone` | src/circuit_breaker.rs:369-500 | exact effect of an undisturbed failure: streak or open in CLOSED, reopen in HALF_OPEN, nothing in OPEN |
| `CircuitBreaker.CountSuccessAlone` | src/circuit_breaker.rs:258-289 | an undisturbed success in HALF_OPEN counts, and closes with both counters cleared at the threshold |
| `CircuitBreaker.SuccessAlone` | src/circuit_breaker.rs:249-315 | exact effect of an undisturbed success: slot given back and count or close in HALF_OPEN, streak cleared in CLOSED, nothing in OPEN |
| `CircuitBreaker.AdmissionIsFixed` | src/circuit_breaker.rs:838-849 | over every run an admitted request keeps its epoch, its admission and whether it probes |
| `CircuitBreaker.OwnCycleIffNoOpen` | src/circuit_breaker.rs:129-238 | a request that once saw the generation of its admission finds any later half-open cycle to be one it probed exactly when no OPEN was published since |
| `CircuitBreaker.DeferredCheckIsExact` | src/proxy/backend_dispatch.rs:1264-1282 | whenever a request that passed the epoch check closes, reopens or counts toward a half-open cycle, it never probed that cycle exactly when an OPEN was published after the check |
| `CircuitBreaker.DeferredRace` | src/circuit_breaker.rs:66-74 | for every configuration that counts some failure and every outcome that can decide a cycle, a run in which a CLOSED-admitted stream passes the check and decides a half-open cycle it never probed |
| `CircuitBreaker.DeferredPromiseIff` | src/proxy/backend_dispatch.rs:1257-1282 | the check's promise holds in every run exactly for configurations in which no failure counts |
| `CircuitBreaker.ReopenIsExact` | src/circuit_breaker.rs:503-546 | whenever a failure that observed HALF_OPEN publishes OPEN, from HALF_OPEN or from CLOSED, it is of the current cycle exactly when its request probed the cycle it observed and no OPEN was published after it looked |
| `CircuitBreaker.StragglerReopens` | src/circuit_breaker.rs:484-489 | for every configuration that counts some failure, a run without any race in which a CLOSED-admitted request reopens a cycle it never probed, and one in which a probe of an earlier cycle does |
| `CircuitBreaker.ReopenRace` | src/circuit_breaker.rs:503-514 | for every such configuration, a run in which a probe that observed its own cycle is overtaken and reopens the next one |
| `CircuitBreaker.ReopenPromiseIff` | src/circuit_breaker.rs:415-418 | that every failure which observed HALF_OPEN is of the current cycle when it reopens holds in every run exactly for configurations in which no failure counts |
| `CircuitBreaker.NeverOpens` | src/circuit_breaker.rs:376-391 | if no failure counts the breaker is CLOSED at generation zero in every run |
| `AdaptiveFence.Reachable` | src/adaptive_concurrency.rs:402-827 | every interleaving of both writers and all requests keeps the fence's invariant |
| `AdaptiveFence.RotationInstalls` | src/adaptive_concurrency.rs:553-558 | a rotation retires the current space for the committed generation and installs one whose lowest generation is the new floor |
| `AdaptiveFence.RunExtends` | src/adaptive_concurrency.rs:640-733 | over every run floors only rise, old spaces keep their bounds and later spaces start at the floors of their time |
| `AdaptiveFence.StructuralCommitIsolates` | src/adaptive_concurrency.rs:630-740 | after a structural commit of a generation, at every later time, nothing older was inserted or granted in the new space or its successors, and nothing of that generation or newer was ever granted in the detached one; policy and load balancer alike |
| `AdaptiveFence.HoldersAreFenced` | src/adaptive_concurrency.rs:402-509 | whoever holds a permit is within the generations of the space it holds it in |
| `AdaptiveFence.QuietWhenUnlocked` | src/adaptive_concurrency.rs:84-145 | with the commit lock free, feedback is unblocked and the transition word ACTIVE, short of epoch exhaustion |
| `AdaptiveFence.BumpNeverLoses` | src/adaptive_concurrency.rs:762-827 | the lost-race early return of a commit is unreachable |
| `AdaptiveFence.ClaimedResetFinishes` | src/adaptive_concurrency.rs:99-145 | every step of the owner of a claimed reset advances it, nothing else touches it, and its last step reactivates under the claimed epoch unless epochs are exhausted |
| `AdaptiveFence.NoGuardAcrossCommit` | src/adaptive_concurrency.rs:964-994 | no feedback guard is live between a commit's drain and its unblocking |
| `AdaptiveFence.Checked` | src/adaptive_concurrency.rs:572-605 | an undisturbed generation check passes exactly when the transition is ACTIVE and each generation is in its window or staged as compatible |
| `AdaptiveFence.AdmittedExactlyWhenOpen` | src/adaptive_concurrency.rs:402-509 | an undisturbed request with room is granted a permit in the current space exactly when its generations are open, and otherwise leaves no trace |
| `AdaptiveFence.CommitAlone` | src/adaptive_concurrency.rs:630-740 | from every reachable state an undisturbed commit of a newer staged generation makes it active, clears its staging and, if structural, raises the floor, detaches the current space and reopens under the next epoch |
| `AdaptiveLimit.Reachable` | src/adaptive_concurrency.rs:441-508 | every interleaving keeps the limit, the in-flight count and every thread's view consistent |
| `AdaptiveLimit.AccountingIsExact` | src/adaptive_concurrency.rs:1103-1107 | always: min <= limit <= max, in-flight is live permits plus attempts not yet rolled back, and outside shadow mode at most max |
| `AdaptiveLimit.BackoffTakesEffect` | src/adaptive_concurrency.rs:1210-1232 | on the step that completes a backoff the limit is at most the decrease of what was observed before invalidation, whatever stale increases won |
| `AdaptiveLimit.EpochCountsBackoffs` | src/adaptive_concurrency.rs:1195-1208 | over every run the feedback epoch rises by exactly the number of invalidations |
| `AdaptiveLimit.CohortIsKept` | src/adaptive_concurrency.rs:492-503 | over every run a live permit carries the epoch of the step that captured it |
| `AdaptiveLimit.CohortIsCurrentIffNoBackoff` | src/adaptive_concurrency.rs:1234-1260 | in every reachable state a live permit belongs to the current cohort exactly when no backoff came after its capture |
| `AdaptiveLimit.RaisesForOwnCohort` | src/adaptive_concurrency.rs:1234-1260 | in every run a step that raises the limit is by a permit with no backoff between its capture and the last time it confirmed its cohort, after which it made no other step |
| `AdaptiveLimit.AtomicRaiseIsCurrent` | src/adaptive_concurrency.rs:1012-1040 | with each callback as one step, only a permit captured after the latest backoff raises the limit |
| `AdaptiveLimit.AcquireAlone` | src/adaptive_concurrency.rs:441-508 | an undisturbed acquire passes exactly below the limit or in shadow mode, holds one slot and the current cohort, and gives the slot back when the re-check fails |
| `AdaptiveLimit.RaiseAlone` | src/adaptive_concurrency.rs:1012-1040 | a healthy callback as one step raises the limit exactly when saturated and of the current cohort |
| `AdaptiveLimit.BackoffAlone` | src/adaptive_concurrency.rs:1195-1232 | a fault callback as one step opens a new cohort and leaves the limit at its decrease if that is lower |
| `ConfigFreshness.Reachable` | src/dp_config_freshness.rs:403-757 | every interleaving of one applier, any evaluators and authority events keeps the fence's invariant |
| `ConfigFreshness.LatchesAreJustified` | src/dp_config_freshness.rs:657-693 | every generation ever latched stale had Lost authority and an age over the bound by its own stamp |
| `ConfigFreshness.StaleMeansLatched` | src/dp_config_freshness.rs:631-647 | a stale state word or a blocking admission word always rests on such a latch of the generation it carries |
| `ConfigFreshness.WordsOnlyGrow` | src/dp_config_freshness.rs:749-757 | over every run state and published words only grow, and the published ones never exceed the state word |
| `ConfigFreshness.StaleIsSticky` | src/dp_config_freshness.rs:403-461 | a stale word stays as it is, reconnects included, until a later generation is applied |
| `ConfigFreshness.RecoveryCannotBeUndone` | src/dp_config_freshness.rs:505-521 | once an apply has returned, no verdict about an older generation blocks traffic at any later time |
| `ConfigFreshness.EvaluateAlone` | src/dp_config_freshness.rs:657-693 | an undisturbed evaluation latches exactly when enabled, Lost and over age, and publishes the resulting verdict unless something newer is published |
| `DeliveryLifecycle.Reachable` | src/observability_delivery.rs:597-693 | every interleaving of spawns, tasks and cancellers keeps the ownership invariant |
| `DeliveryLifecycle.AccountingIsExact` | src/observability_delivery.rs:496-522 | always: the gauge is exactly the permits not yet released and within budget, no release underflows, and each cancellation counter is exactly the calls counted |
| `DeliveryLifecycle.OnlyRemoverSettles` | src/observability_delivery.rs:648-693 | nothing happens twice to a task: one remover, who alone releases its permit and alone may count it cancelled, a completion never counting |
| `DeliveryLifecycle.PermitHasOneOwner` | src/observability_delivery.rs:902-931 | a permit has exactly one owner among call, registry, task and canceller from reservation to release, and none outside |
| `DeliveryLifecycle.SweepLeavesOnlyReclaimers` | src/observability_delivery.rs:776-790 | after a canceller's sweep only spawn calls still about to notice the cancellation have entries |
| `DeliveryLifecycle.QuietMeansRegistryOnly` | src/observability_delivery.rs:688-693 | with every call returned and nobody between removal and release, permits and registry entries coincide; after a sweep both are gone and the gauge is zero |
| `DeliveryLifecycle.CompletionSettles` | src/observability_delivery.rs:635-693 | a handed-off task that is over has had its entry removed and its permit released by its completion, or taken by a canceller who releases it; unless its runtime dropped it before its first poll, and then entry and permit stay until a canceller takes them |
| `DeliveryLifecycle.UnpolledDropLeaks` | src/observability_delivery.rs:635-651 | from every reachable state that accepts and has room, a run after which a task is over and its entry and permit are still out |
| `DeliveryLifecycle.SpawnsAlone` | src/observability_delivery.rs:597-679 | exact outcome of an undisturbed spawn: refused without a trace when closed, full or without a runtime, taken back and counted when cancelling, otherwise registered and handed off |
| `DeliveryLifecycle.TasksAlone` | src/observability_delivery.rs:688-693 | a handed-off task that runs to its end removes its entry and gives exactly its permit back |
| `ConsumerIndex.LookupIsLastHolder` | src/consumer_index.rs:400-502 | looking a key up in an index finds the last consumer of the list that has it, and nobody else |
| `ConsumerIndex.IndexIsUnique` | src/consumer_index.rs:47-57 | a consumer list has exactly one index: all maps, the namespaced one included, the list and the counts |
| `ConsumerIndex.PatchIsRebuild` | src/consumer_index.rs:268-334 | removing what departing consumers own and re-exposing shadowed entries gives exactly the index of the survivors, for every key function |
| `ConsumerIndex.InsertHmac` | src/consumer_index.rs:505-527 | the namespaced map keeps representing the flat one, with no empty namespace |
| `ConsumerIndex.PruneHmac` | src/consumer_index.rs:292-301 | pruning the namespaced map is pruning the flat one, empty namespaces dropped |
| `ConsumerIndex.RestoreHmac` | src/consumer_index.rs:591-606 | re-exposing in the namespaced map is re-exposing in the flat one |
| `ConsumerIndex.CollectDeparted` | src/consumer_index.rs:204-265 | one scan collects the departing consumers' keys for all six maps and the exact change of both credential counts |
| `ConsumerIndex.RestoreShadowed` | src/consumer_index.rs:530-620 | one pass over the survivors re-exposes the collected keys in all six maps |
| `ConsumerIndex.RemoveDeparted` | src/consumer_index.rs:268-334 | the maps of a list become the maps of its survivors |
| `ConsumerIndex.BuildIndex` | src/consumer_index.rs:400-502 | the loop builds the index of the list: last writer wins in every map, counts included |
| `ConsumerIndex.ApplyDelta` | src/consumer_index.rs:162-372 | for every index and delta the patched index is the index of survivors, then added, then modified |
| `ConsumerIndex.ConsumerIndex.constructor` | src/consumer_index.rs:61-68 | a new index is the index of its list |
| `ConsumerIndex.ConsumerIndex.Rebuild` | src/consumer_index.rs:115-117 | a rebuilt index is the index of the new list |
| `ConsumerIndex.ConsumerIndex.Apply` | src/consumer_index.rs:162-372 | patching keeps the index the index of its list, which becomes survivors, added, modified |
| `ConsumerIndex.ConsumerIndex.FindByApiKey` | src/consumer_index.rs:639-641 | the last consumer of the list with that API key |
| `ConsumerIndex.ConsumerIndex.FindByUsername` | src/consumer_index.rs:644-646 | the last consumer with basic credentials and that username |
| `ConsumerIndex.ConsumerIndex.FindByIdentity` | src/consumer_index.rs:649-651 | the last consumer with that username, id or custom id |
| `ConsumerIndex.ConsumerIndex.FindHmacByIdentity` | src/consumer_index.rs:653-658 | the last consumer of that namespace with HMAC credentials and that name |
| `ConsumerIndex.ConsumerIndex.FindByMtlsIdentity` | src/consumer_index.rs:661-663 | the last consumer with that certificate identity |
| `ConsumerIndex.ConsumerIndex.FindByMtlsDnsIdentity` | src/consumer_index.rs:666-668 | the last consumer with that identity in lower case |
| `ConfigDelta.DiffsAre` | src/config_delta.rs:484-524 | a resource is added, modified or neither, exactly by whether its key is known and its version changed |
| `ConfigDelta.RemovedAre` | src/config_delta.rs:493-503 | the removed keys are exactly those of the old snapshot missing from the new one |
| `ConfigDelta.PatchedIsNewSnapshot` | src/config_delta.rs:91-133 | the delta applied to the old consumers is the new snapshot in some order, up to creation times |
| `ConfigDelta.SameLookup` | src/config_delta.rs:511-524 | every lookup in the patched list finds the consumer a lookup in the new snapshot finds, up to creation time |
| `ConfigDelta.DeltaAgreesWithRebuild` | src/config_delta.rs:91-133 | for unique ids and no shared keys, delta then patch gives the same lookups, consumers and counts as rebuilding |
| `ConfigDelta.SharerTakesOver` | src/consumer_index.rs:337-372 | a consumer with a shared key takes the key over when a patch adds it, whoever holds it last in the new snapshot |
| `ConfigDelta.AgreesIffExclusive` | src/config_delta.rs:484-524 | the side condition is exact: from every old snapshot patching answers like rebuilding if and only if no two consumers of the new one share a key |
| `ConfigDelta.ReloadBothWays` | src/config_delta.rs:91-133 | building, diffing and patching end to end gives an index that answers like the one rebuilt from the new snapshot |
| `PluginInvalidation.RebuildIds` | src/config_delta.rs:159-257 | the set grown in loops is the set of proxies added, modified, reassociated, touched by a changed configuration, or all of them |
| `PluginInvalidation.StableIsSame` | src/config_delta.rs:176-214 | configurations selected by a property no changed one has are the same in both snapshots |
| `PluginInvalidation.InvalidationIsSound` | src/config_delta.rs:532-565 | a proxy outside the rebuild set has an old version with the same associations and the same plugin inputs: globals, associated and direct configurations, up to creation times |
| `PolicyPath.BuildDecodeTable` | src/policy_path.rs:257-273 | the table filled in a loop marks exactly the `pchar` bytes |
| `PolicyPath.AcceptsExactly` | src/policy_path.rs:379-470 | accepted exactly when every percent sign starts an escape of a decodable byte and, enforced, there is no backslash and no segment decoding to a dot segment; the output is the decoded path |
| `PolicyPath.SegmentsOneForOne` | src/policy_path.rs:379-470 | the output's segments are the decoded segments of the target, one for one |
| `PolicyPath.Idempotent` | src/policy_path.rs:372-386 | canonicalizing a canonical path returns it unchanged |
| `PolicyPath.RejectsFirstFault` | src/policy_path.rs:310-327 | a rejection names the first fault of the target, position by position, and a target is accepted exactly when it has none |
| `PolicyPath.UnescapedIsText` | src/policy_path.rs:457-470 | valid UTF-8 decodes to valid UTF-8 |
| `PolicyPath.PrescanPath` | src/policy_path.rs:345-369 | the scan's refusals and acceptances are the decoder's, and otherwise there is a percent sign |
| `PolicyPath.DecodePath` | src/policy_path.rs:388-457 | the decoding loop computes the decoder's verdict |
| `PolicyPath.Canonicalize` | src/policy_path.rs:379-470 | scan then decode gives the decoder's result or first rejection in both modes, borrowed exactly without escapes, the UTF-8 fallback never taken |
| `PolicyPath.NonCanonicalReason` | src/policy_path.rs:480-505 | no reason is given exactly for paths that are their own canonical form, and a rejection is named |
| `DestinationLimiter.Limiter.ResidentIffGuarded` | src/backend_conn_limit.rs:332-354 | a destination is resident exactly while guarded, by the very counter its guards hold, which counts them |
| `DestinationLimiter.Limiter.Current` | src/backend_conn_limit.rs:304-309 | the reported count is the number of live guards |
| `DestinationLimiter.Limiter.TryHit` | src/backend_conn_limit.rs:236-251 | a resident counter below the cap grants one guard and stays within the cap, at the cap refuses, absent misses; nothing else changes |
| `DestinationLimiter.Limiter.EnterCold` | src/backend_conn_limit.rs:257-275 | the second lookup grants below the cap, creating the counter if still absent, or refuses without leaving an entry |
| `DestinationLimiter.Limiter.Interleave` | src/backend_conn_limit.rs:215-275 | after any sequence of other callers' lookups and drops the map is still valid: resident exactly while guarded, counted exactly |
| `DestinationLimiter.Limiter.TryAcquire` | src/backend_pending_limit.rs:322-385 | with anything going on between its two lookups: no cap means unlimited, a zero cap is refused with the map untouched, a grant never exceeds its cap and a refusal reports the count it met; decided by the first lookup when that hits |
| `DestinationLimiter.Limiter.Drop` | src/backend_active_request_limit.rs:336-355 | a drop releases one slot and evicts the destination exactly when it was the last |
| `DialLanes.OrderDoesNotMatter` | src/backend_conn_limit.rs:484-497 | which lane governs depends on the set of publications, not on their order |
| `DialLanes.SomethingGoverns` | src/backend_conn_limit.rs:493-497 | any non-empty list of publications has a governing lane |
| `DialLanes.Entry.Acquire` | src/backend_conn_limit.rs:550-570 | folding a publication keeps the lane the strictest of the highest generation published since the entry came alive |
| `DialLanes.Entry.ReleaseIsIdle` | src/backend_conn_limit.rs:574-580 | a release never changes the lane and reports idleness exactly at zero |
| `DialLanes.Registry.LaneIffLeased` | src/backend_conn_limit.rs:700-749 | an entry exists exactly while some lease of its address is held |
| `DialLanes.Registry.LeaseHit` | src/backend_conn_limit.rs:712-727 | a lease on a live entry folds the publication into it and into no other |
| `DialLanes.Registry.LeaseNew` | src/backend_conn_limit.rs:728-737 | the first lease of an address brings an entry alive with just its publication |
| `DialLanes.Registry.LeaseCold` | src/backend_conn_limit.rs:728-749 | a lease after a miss folds into the entry found then, or into a new one; every other address keeps its publications and lane |
| `DialLanes.Registry.Drop` | src/backend_conn_limit.rs:792-801 | dropping a lease evicts the entry exactly when it was the last, and changes no lane |
| `DialLanes.Registry.LaneFor` | src/backend_conn_limit.rs:757-764 | the connector sees a lane exactly while leased, and then the governing one |
| `LaneKeys.DecimalInjective` | src/backend_pending_limit.rs:229-235 | different numbers have different decimal texts |
| `LaneKeys.PrefixedThen` | src/backend_pending_limit.rs:229-235 | a length-prefixed part can be told from whatever follows it |
| `LaneKeys.WriteActiveKey` | src/backend_active_request_limit.rs:160-173 | appending piece by piece writes the active-request key |
| `LaneKeys.ActiveKeyInjective` | src/backend_active_request_limit.rs:160-173 | equal active-request keys mean equal scopes, for all byte strings |
| `LaneKeys.WriteScopePrefix` | src/backend_pending_limit.rs:193-225 | appending piece by piece writes the scope prefix, an empty uid left out |
| `LaneKeys.WritePendingKey` | src/backend_pending_limit.rs:264-267 | the port goes after the prefix |
| `LaneKeys.PendingKeyInjective` | src/backend_pending_limit.rs:193-225 | pending keys are equal exactly for equal namespace, id, uid, subset and port, an empty uid counting as none |

## Left out

- Weak memory: the acquire, release and relaxed orderings of the atomics; every step is sequentially consistent.
- Exact success counts per half-open cycle: the counter is reset after the compare-exchange that opens the cycle, so a racing success can be lost or carried over.
- A bound on live probes summed over several half-open cycles: a straggler's release may free a slot of a later cycle.
- Which status codes and error classes count as breaker failures, the breaker cache with its entry limit and pruning, and the breaker's wall clock for display.
- Adaptive limiter: the scope cache, key-slot reservation, the latency baseline and moving average (the verdict on a sample is an input) and floating point (the ratio is a real between zero and one).
- AdaptiveFence.StructuralCommitIsolates: each side has one writer issuing its generations in increasing order, as its callers do; tracking maps are logs of insertions and grants, and a feedback generation check may go either way.
- Freshness: reason labels, deadlines, outage clock, waiters and the snapshot report; integer overflow of millisecond stamps.
- Delivery: worker queues, drain waiting and its report, rejection counters and warnings; drain completeness as the source reads its registry and the registration count separately.
- Consumer index: the snapshot-backed facade, collision warnings, metric tuples, and numeric overflow of the credential counts.
- Config delta: removed proxies, upstreams (timestamps only, by the same generic functions), affected routes, and JSON serialization, which is field equality with timestamps erased; comparing sorted association lists is multiset equality.
- PluginInvalidation.InvalidationIsSound: plugin inputs are sets of configurations and a multiset of associations; their order in the snapshot is not part of them.
- Policy path: client error bodies and gRPC messages.
- Limiters: process-wide totals, log rate limiting, shared guards by reference counting, host normalization and the FNV digest; keys are any type with equality, and counts do not overflow.
- Process startup, I/O, tracing, metrics rendering, panics and lock poisoning.
