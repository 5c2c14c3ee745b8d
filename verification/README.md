# Verified models of svcrt

Dafny models of the parts of svcrt whose behaviour is hard to see from any one function, with proofs
about every run or every input. `dafny verify dfyconfig.toml` checks all of it.

**Lifecycle** (`Levels`, `Lifecycle`, `LifecycleRun`, `LifecycleInvariant`, `LifecycleSteps`,
`LifecycleTheorems`, `LifecycleProgress`, `LifecycleReports`, `LifecycleWaking`, `Health`). Registration is a class with the source's fields. `Run` is a step
system: the main goroutine's program counter, one goroutine per component of a level between spawn and
barrier, the caller's cancellation, and concurrent `Fatal` calls between entering the Once, the store
and the close, may interleave in any way. Every call and return is an event of a trace, and the
theorems speak of positions in that trace. The probe gates are replayed store by store. A measure bounds the
steps Run can still take, so that safety comes with an end.

**Circuit breaker** (`Breaker`, `BreakerRuns`, `BreakerTheorems`, `BreakerFlights`). The three locked sections are methods
of a class. A run interleaves any number of requests in flight, each between its `allow`, its `record`
(or a panic) and its `releaseProbe`, under a clock that never goes back. The history of events determines
the fields, and the theorems are about that history.

**Retry, Timeout, and the client** (`Durations`, `Backoff`, `RetryAfter`, `Retry`, `RetryTheorems`,
`RetryEndings`, `Client`). The loop is a method over a ledger of what was sent, read, closed, cancelled, asked of Backoff
and slept; everything the loop asks the outside world is an arbitrary function of the attempt number.
Durations are 64-bit. `Client` puts the breaker, with an arbitrary `TripIf`, around the loop as `NewClient`
does; its sequences of calls may differ in request, headers, backoffs and times.

**Config** (`ConfigTypes`, `ConfigMeaning`, `ConfigPlan`, `ConfigSchema`, `ConfigLoad`, `ConfigRefinement`,
`ConfigTheorems`, `ConfigOutcomes`, `ConfigReport`, `Config`). Types are data: a universe of named structs that may refer to each other in cycles.
The walker, the plan it emits, the block-presence loops and the decode loop are modelled as written, and
`Load` is proved to return what a decoder recursing directly over the type returns. A walk's output is
a sequence of items with index paths relative to the struct, so nesting is a shift of paths; that is what
makes the flat plan comparable with the recursion. What `Load` reports and returns is also stated field by
field, from the tags, the source and the parsers alone.

**Logging** (`LogTree`, `LogHandler`, `LogTheorems`). `LogTree` is plain slog as a function from the calls
on a handler to the tree of a record. Handlers keep their deferred calls in a slice over a real array,
with length and capacity, so that aliasing is part of the model.

**Notifications example** (`Notifications`, `NotificationStack`, `NotificationProgress`, `NotificationPanic`). The store and its queue, and the product
of `Run` with the HTTP handlers and the delivery worker, wired as `buildStack` wires them. Of the server
it is assumed that handlers run only between its Start and its Shutdown, that a server that fails to start
leaves none, and that a Shutdown returning nil leaves none either.

## Where the code and its documentation differ

The models follow the code. Each point has a lemma at a concrete input or run, and the exact condition.

- A `Retry-After` of 9223372037 seconds wraps in 64 bits to a negative delay, which passes the cap: the
  loop retries at once although the comment on the cap says that the policy's backoff is used
  (`HugeHeaderSkipsTheBackoff`, `PromiseKeptExactly`).
- The breaker is said to admit exactly one probe. Two can be on the network for either of two reasons. A
  request admitted before the circuit opened may report while a probe is out (`TwoProbesCanBeOut`), or a
  probe that has failed may let go so late that it clears the flag of the next one
  (`LateReleaseLetsTwoOut`). `OneProbeExactly` says which runs keep to one probe, `OneProbeWhenOrderly` that
  there is no third reason, and `OneProbePerRelease` what holds of every run.
- Extractor attributes are said to be always at the top level. Over a base with a group open they land in
  the group (`GroupedBaseHidesExtractors`); they are at the top exactly when the handler given to
  `NewHandler` has none (`TopLevelNeedsAnUngroupedBase`).
- `Exponential` with an odd maximum reaches it one unit early (`OddMaximumComesEarly`,
  `ExponentialIsCappedDoubling`), and `Jitter` panics for the single delay 2^63 - 1 (`LargestDelayPanics`,
  `JitterStaysInRange`).
- In the notifications example the worker's Stop closes the queue after the API's Shutdown has returned,
  not after its handlers have. If Shutdown gave up with an error a handler can still send on the closed
  channel: `LateHandlerPanics` is a run from boot to the panic, `CloseIsSafeExactly` the condition.

## Model

| member | source | states |
|---|---|---|
| Levels.ComputeLevels | lifecycle/graph.go:11-32 | the two passes return the grouping by longest dependency chain |
| Levels.LongestChain | lifecycle/graph.go:16-26 | some dependency chain ending at a component has as many edges as its level |
| Levels.NoLongerChain | lifecycle/graph.go:16-26 | no dependency chain ending there has more, so the level is the length of the longest |
| Levels.NoEarlierLayering | lifecycle/graph.go:5-10 | every layering that respects the edges puts a component at its level or later |
| Levels.NoShallowerLayering | lifecycle/graph.go:5-10 | every layering that respects the edges has at least as many levels |
| Levels.LevelsPartition | lifecycle/graph.go:27-31 | the levels partition all component indices into ascending, non-empty groups |
| Lifecycle.Lifecycle.constructor | lifecycle/lifecycle.go:72-77 | an empty lifecycle with its stop timeout defaulted and no fatal error |
| Lifecycle.Lifecycle.Add | lifecycle/lifecycle.go:88-118 | the new component, its resolved edges and one error per unusable declaration; the graph stays forward whatever the caller declares |
| Lifecycle.Lifecycle.ResolveRefs | lifecycle/lifecycle.go:109-115 | the loop over the refs keeps those that resolve, in order, and adds one error for each other |
| Lifecycle.RefsResolve | lifecycle/lifecycle.go:109-115 | resolved indices are in range; resolved and rejected refs add up; with no error nothing was dropped or reordered |
| Lifecycle.OneMoreRef | lifecycle/lifecycle.go:109-115 | a Ref of another Lifecycle or out of range adds one error and no edge, any other its edge and no error |
| Lifecycle.ReportedByAdd | lifecycle/lifecycle.go:93-115 | Add reports a missing Start, a missing Stop and a Ref of another Lifecycle or to no earlier component, each exactly when there is one, and nothing else |
| Lifecycle.Lifecycle.OnStarted | lifecycle/lifecycle.go:128 | appends the hook |
| Lifecycle.Lifecycle.OnDrain | lifecycle/lifecycle.go:131 | appends the hook |
| Lifecycle.Lifecycle.Fatal | lifecycle/lifecycle.go:211-219 | the first non-nil error stays; the channel is closed exactly when an error is stored |
| LifecycleRun.BeginRun | lifecycle/lifecycle.go:140-146 | construction errors are all reported and nothing starts; otherwise every component is complete and the levels are those of a forward graph |
| LifecycleSteps.Reachable | lifecycle/lifecycle.go:140-322 | the invariant holds in every reachable state of every interleaving |
| LifecycleTheorems.StartsAfterDependencies | lifecycle/lifecycle.go:148-157 | Start is called only after every dependency's Start returned nil, at most once, never after a Stop |
| LifecycleTheorems.StopsAfterDependents | lifecycle/lifecycle.go:276-300 | Stop is called only for a component whose Start returned nil, at most once, after every started dependent's Stop returned, with no Start outstanding |
| LifecycleTheorems.ReturnLeavesNothingRunning | lifecycle/lifecycle.go:140-198 | when Run has returned no call is outstanding and Stop was called for exactly the components whose Start returned nil |
| LifecycleTheorems.FailedBootReportsEverything | lifecycle/lifecycle.go:149-156 | a failed boot returns exactly the start errors and the unwind's stop errors, each once |
| LifecycleTheorems.SiblingsAreTold | lifecycle/lifecycle.go:221-247 | the context of the level being started is cancelled exactly when the caller's is or a failed Start of that level has been recorded; its own cancel is called exactly in the second case |
| LifecycleTheorems.CleanBootReport | lifecycle/lifecycle.go:184-198 | when every Start succeeded Run returns the Fatal error stored before the final load, first, and the failed stops, each once, and nil exactly when there is neither |
| LifecycleReports.ReportIsInOrder | lifecycle/lifecycle.go:149-156 | what Run returns is in order: the Fatal error or the failed Starts as registered, then the failed Stops, no component's before that of one started for it |
| LifecycleTheorems.FatalSeenMeans | lifecycle/lifecycle.go:186-196 | what the final load sees is the error stored before it, if any |
| LifecycleTheorems.FirstFatalWins | lifecycle/lifecycle.go:173-182 | a closed channel implies a stored error, stored before the one close; the first Fatal call wins |
| LifecycleInvariant.JoinHoldsTheErrors | lifecycle/lifecycle.go:234-249 | the join of a level's errors holds each failed start once and nothing else |
| LifecycleTheorems.NeverStuck | lifecycle/lifecycle.go:140-300 | unless Run has returned or waits for a cancellation or Fatal that has not come, one of its own steps is enabled |
| LifecycleWaking.KeepsRunningUntilTold | lifecycle/lifecycle.go:173-185 | a service whose Starts have not failed drains, calls a Stop or returns only after the context was cancelled or Fatal has closed its channel |
| LifecycleProgress.OwnStepsAreBounded | lifecycle/lifecycle.go:140-300 | in every continuation of every reachable state Run and its goroutines take at most as many steps as the measure says |
| LifecycleProgress.WokenRunReturns | lifecycle/lifecycle.go:173-198 | once cancelled or told of a fatal error Run can return with its own steps alone, within the measure |
| LifecycleTheorems.ReadyMeansServing | httpserver/health.go:101-164 | an open Ready gate means every Start returned nil and no Stop was called; never on a failed boot; Live is always open |
| LifecycleTheorems.ReadyNeverReopens | httpserver/health.go:157-164 | once the drain has closed Ready no continuation opens it |
| LifecycleWaking.UpWhileWaiting | httpserver/health.go:140-155 | with Up among the started hooks Started and Ready are open while Run waits, and after a clean boot Started stays open |
| LifecycleWaking.GatesExactly | lifecycle/lifecycle.go:162-185 | the gates, whatever the hooks: as built until the last Start is back and throughout a failed boot, then as the last of Up and Drain in the order of registration says, the started hooks while Run waits, these and the drain hooks from the first Stop on |
| Health.Health.constructor | httpserver/health.go:113-117 | only Live is open |
| Health.Gate.constructor | httpserver/health.go:21-45 | a gate starts closed, with no check |
| Health.Gate.Set | httpserver/health.go:48 | the gate is as told; its checks are untouched |
| Health.Health.Up | httpserver/health.go:152-155 | the stores that a run replays: Started and Ready open, Live untouched |
| Health.Health.Drain | httpserver/health.go:164 | the one store that a run replays: Ready closed |
| Health.Health.AddReadyCheck | httpserver/health.go:134-138 | appends to the checks of Ready and changes no other gate |
| Health.Gate.ServeHTTP | httpserver/health.go:53-86 | 200 exactly when the gate is open and every check passes; a closed gate names no check |
| Health.Gate.FailedNames | httpserver/health.go:64-75 | the failing checks, none exactly when all pass |
| Health.FlatOpsEffects | httpserver/health.go:152-164 | no hook touches Live, only Up opens a gate, Drain closes Ready |
| Health.HooksInOrder | lifecycle/lifecycle.go:162-164 | a list of hooks run in order: Started is open once an Up ran, Ready as the last Up or Drain left it |
| Breaker.WithDefaults | resilience/breaker.go:47-61 | threshold and cooldown stay as given when positive and are else 5 and 30 seconds |
| Breaker.CircuitBreaker.constructor | resilience/breaker.go:194-195 | closed, no failure counted, no probe out, policy defaulted |
| Breaker.CircuitBreaker.AllowRequest | resilience/breaker.go:111-137 | the answer and the whole new state of allow |
| Breaker.CircuitBreaker.RecordResult | resilience/breaker.go:140-157 | the whole new state of record |
| Breaker.CircuitBreaker.ReleaseProbe | resilience/breaker.go:163-167 | clears the probe flag only |
| BreakerRuns.Reachable | resilience/breaker.go:111-214 | the invariant tying fields, flights and history holds in every run, stragglers and panics included |
| BreakerTheorems.StateIsHistory | resilience/breaker.go:98-157 | the count is the trailing run of tripping results, closed exactly when that run is short of the threshold, and the opening time is that of the last result |
| BreakerTheorems.AnsweredAsPromised | resilience/breaker.go:111-137 | every request is answered as its history alone determines |
| BreakerTheorems.HalfOpenClauseIsRedundant | resilience/breaker.go:151-156 | a machine without record's half-open clause goes through the same states |
| BreakerTheorems.ProbeFlagIsOwned | resilience/breaker.go:159-167 | a set probe flag belongs to an admitted probe that has not let go |
| BreakerTheorems.OneProbePerRelease | resilience/breaker.go:124-132 | within one half-open episode admissions are at most one more than releases |
| BreakerTheorems.NeverStranded | resilience/breaker.go:115-132 | with nothing in flight and Cooldown passed since the last result the next request is admitted |
| BreakerTheorems.HistoryIsLegal | resilience/breaker.go:194-214 | in every run times do not decrease and each request was answered as promised for the events before it |
| BreakerTheorems.FailureCostsACooldown | resilience/breaker.go:150-156 | after a failure that leaves the circuit open no probe is admitted within Cooldown |
| BreakerTheorems.OpeningsAreSpaced | resilience/breaker.go:115-122 | k open-to-half-open transitions span at least (k - 1) Cooldowns |
| BreakerFlights.TwoProbesCanBeOut | resilience/breaker.go:171-174 | a run with two probes on the network, against the promise of exactly one: a straggler re-opens the circuit under the first |
| BreakerFlights.LateReleaseLetsTwoOut | resilience/breaker.go:159-167 | another such run without a straggler: a late release clears the flag of the newer probe |
| BreakerFlights.OneProbeExactly | resilience/breaker.go:115-132 | a run keeps to one probe on the network throughout if and only if no request arrives while one is there, the circuit is not closed by the history, and either a release came after the episode's last admission, or a result did and Cooldown has passed since |
| BreakerFlights.SecondProbeExactly | resilience/breaker.go:115-132 | one step puts a second probe on the network exactly in that case |
| BreakerFlights.OneProbeWhenOrderly | resilience/breaker.go:171-174 | a straggler's report and a late release are the only causes: while no other request reports and no other probe lets go under a probe on the network, it is alone and the circuit is half-open |
| BreakerFlights.OneOutcomePerAdmission | resilience/breaker.go:198-213 | in every interleaving each admission of a request has exactly one outcome, a recorded result or a panic, exactly when it is off the network |
| BreakerFlights.RecordsAreResults | resilience/breaker.go:207-212 | the records of a run are exactly those results |
| Backoff.Exponential | resilience/backoff.go:37-51 | the loop computes the guarded doubling |
| Backoff.ExponentialNeverWraps | resilience/backoff.go:28-30 | no intermediate doubling leaves 64 bits |
| Backoff.ExponentialIsCappedDoubling | resilience/backoff.go:37-51 | the value is min(base * 2^(attempt-1), max), except that an odd max is reached exactly one unit early |
| Backoff.OddMaximumComesEarly | resilience/backoff.go:37-51 | from 1 towards 5 the third attempt waits 5, not 4 |
| Backoff.ExponentialIsMonotone | resilience/backoff.go:37-51 | it never decreases with the attempt and never exceeds max |
| Backoff.JitterStaysInRange | resilience/backoff.go:61-69 | every draw is in [0, d]; it panics exactly for the largest duration |
| Backoff.LargestDelayPanics | resilience/backoff.go:67 | the largest duration makes the generator panic |
| Backoff.JitterRange | resilience/backoff.go:53-69 | every delay in [0, d] can be drawn and no other |
| RetryAfter.AdoptedIsCapped | resilience/retry.go:235-238 | the adopted delay is at most the larger of the backoff and 30 seconds, whatever the header says |
| RetryAfter.DatesAreWaitedOut | resilience/retryafter.go:22-49 | a date at most 30 seconds away is waited out to the instant, a past one not at all; later dates and other statuses leave the backoff |
| RetryAfter.HugeHeaderSkipsTheBackoff | resilience/retryafter.go:36-41 | a header that wraps negative is adopted, against the documented fallback |
| RetryAfter.PromiseKeptExactly | resilience/retry.go:37-43 | the documented treatment of delta-seconds holds exactly for at most 30 seconds or a product read as a delay above the cap |
| RetryAfter.OrdinaryHeadersAreKept | resilience/retryafter.go:36-41 | it holds for every header of at most 9223372036 seconds |
| Retry.WithDefaults | resilience/retry.go:115-134 | attempts and methods as given, else three attempts and the idempotent methods |
| Durations.Wrap | resilience/retryafter.go:40 | the value a 64-bit product keeps: in range, congruent modulo 2^64, and exact when it fits |
| Retry.Call.Send | resilience/timeout.go:24-59 | what one attempt obtains: an error cancels its context, a missing body becomes the empty one |
| Retry.Call.Drain | resilience/retry.go:191-197 | reads up to the cap and closes, which cancels the attempt's context |
| Retry.Call.ChooseDelay | resilience/retry.go:235-238 | the backoff, unless the response asks for a delay within the cap |
| Retry.Call.Run | resilience/retry.go:219-253 | the loop ends and leaves the ledger as the specification does, panicking RetryIf included |
| RetryTheorems.ResponsesAreConserved | resilience/retry.go:189-253 | each response is either the one returned, unread, unclosed and with its context alive, or drained, closed once and its context cancelled |
| RetryTheorems.SendsAreBounded | resilience/retry.go:219-233 | between 1 and MaxAttempts sends, exactly one when not eligible; Backoff is asked in turn and only before the last attempt |
| RetryTheorems.SleepsAreBounded | resilience/retry.go:235-251 | every sleep starts with more time left than it takes and is within the cap |
| RetryTheorems.TotalSleepIsBounded | resilience/retry.go:235-251 | all sleeps together are at most (MaxAttempts - 1) times the larger of the backoff's bound and 30 seconds |
| RetryTheorems.DefaultPolicySleepsAMinute | resilience/retry.go:115-121 | with the default attempts and any draws of the default backoff a call sleeps at most a minute, whatever the headers say |
| RetryEndings.EndingExactly | resilience/retry.go:219-253 | the ending of an eligible call from what the world does alone: with n the first attempt not followed by another, which of the four endings it is, n sends as obtained, Backoff asked in turn, and on a Result attempt n's response untouched |
| RetryEndings.SleepsExactly | resilience/retry.go:235-251 | one sleep after each attempt that another follows, one more when the call gives up in it or cannot rebuild the body, each for exactly its delay |
| RetryEndings.DelayIsWait | resilience/retryafter.go:21-52 | that delay: the header's when usable on a 429 or 503, exactly n seconds up to 30, a date to the instant, and the backoff for no header, a malformed one, another status or an error |
| RetryEndings.TimeLeftIsCanWait | resilience/retry.go:264-270 | the loop goes on exactly when more time is left than the delay takes and the delay is not the largest duration |
| RetryEndings.SecondSendExactly | resilience/retry.go:162-171 | a second send happens exactly for a request without a body or with a rebuildable one, with a method of the policy, whose first attempt goes on |
| RetryEndings.IneligibleIsPassedOn | resilience/retry.go:220-222 | any other request is sent once and its result handed back as it came |
| Client.NewClient | kit/client.go:72-89 | Breaker outermost unless disabled, Retry directly outside telemetry, the caller's middleware innermost |
| Client.StackedClient.constructor | resilience/breaker.go:47-61 | a fresh closed breaker around the given retry policy, with the given TripIf or the default one |
| Client.StackedClient.Send | resilience/breaker.go:198-213 | one call through breaker and loop has the composed result and leaves the composed state, for any TripIf |
| Client.CallIsOneRecord | resilience/breaker.go:177-182 | for any TripIf a logical call extends any run of the breaker by its own steps, with one record when admitted, none on a panic, and 1 to MaxAttempts sends |
| Client.LateSuccessClearsTheCount | resilience/breaker.go:177-180 | for any TripIf a call moves the count by its final result alone; with the default one a final response below 500, on whichever attempt, closes the circuit and leaves the count at 0 |
| Client.DefaultTripsExactly | resilience/breaker.go:83-88 | with the default TripIf a call adds one to the count exactly when it ends in an error, of the loop or the transport, or in a status of 500 or more, and else clears it |
| Client.DefaultsDisagreeExactly | resilience/breaker.go:65-82 | the documented table: the two defaults disagree on a 429 and on a 5xx other than 502, 503 and 504, and agree on errors and all else |
| Client.DeadCallUsesEveryAttempt | resilience/retry.go:219-253 | against a transport that fails or answers 503 every time an eligible call without a deadline sends MaxAttempts requests and ends in such a result |
| Client.DefaultCountsFailures | resilience/breaker.go:47-61 | the defaulted policies meet what the next two rows ask of policies |
| Client.DeadUpstreamUntilOpen | resilience/breaker.go:140-157 | any sequence of such calls, whatever the requests, headers, backoffs and times, is admitted up to the threshold and the threshold's call opens the circuit |
| Client.DeadUpstreamOpensTheCircuit | kit/client.go:72-89 | for any such sequence exactly FailureThreshold * MaxAttempts sends come before it, and the next call, whatever its request, is refused exactly within Cooldown |
| ConfigTypes.SplitJoins | config/decode.go:106 | splitting at commas loses nothing and leaves no comma in a part |
| ConfigTypes.DecodeAllElements | config/decode.go:108-112 | a slice decodes exactly when every element does, each to its own value |
| ConfigMeaning.DecodeSlice | config/decode.go:99-115 | the loop computes what the string means for the slice, or fails when a part means nothing |
| ConfigMeaning.DecodesExactly | config/decode.go:25-134 | the decoder gives a value exactly when the string means it, and fails exactly when it means nothing, the parsers deciding |
| ConfigMeaning.DecodableExactly | config/decode.go:25-134 | a type has a decoder exactly when nothing unsupported and no struct lies below its slices and pointers and no slice holds slices |
| ConfigPlan.Walker.Walk | config/plan.go:82-165 | terminates on every type graph and absorbs the items of the type with the caller's index path in front |
| ConfigPlan.Walker.WalkField | config/plan.go:84-163 | one field: which fault is reported, or the block and the nested walk, or the binding |
| ConfigPlan.BuildPlan | config/plan.go:45-61 | the plan of a struct type; anything else is a schema violation |
| ConfigSchema.BindingsAreOrderedAndDistinct | config/plan.go:139-163 | for every type, keys are pairwise distinct and index paths strictly increase |
| ConfigSchema.LoadableExactly | config/plan.go:82-165 | no violation exactly when every reachable exported field is well tagged and decodable, no type contains itself on its own path, and full keys are distinct |
| ConfigSchema.AbsorbsCleanly | config/plan.go:140-163 | absorbing items reports nothing exactly when they are clean with keys apart, and then keeps every binding and block in order |
| ConfigPlan.Walker.constructor | config/plan.go:54-58 | an empty plan, with the root on the active path |
| ConfigPlan.Walker.Add | config/plan.go:80 | one more violation and nothing else |
| ConfigSchema.BindingsAreLocated | config/plan.go:140-163 | every binding sits at an index path that reaches a field with its key |
| ConfigSchema.PathsAreBound | config/plan.go:140-163 | every path to a keyed field has its binding |
| ConfigLoad.FindSkipped | config/config.go:101-118 | a binding is skipped exactly when a block above it holds no key of the source |
| ConfigLoad.DecodeAllBindings | config/config.go:120-151 | the loop's violations and assignments are those of the bindings not skipped, in order |
| ConfigRefinement.SetAllNested | config/plan.go:201-212 | assigning through index paths below a field assigns within what it holds, allocating a nil pointer once |
| ConfigRefinement.LiveInBlock | config/config.go:98-118 | a block lets its bindings through exactly when one of them is found |
| ConfigRefinement.LiveSplits | config/config.go:101-118 | the fields of a struct do not affect each other's bindings |
| ConfigRefinement.Refines | config/config.go:86-151 | plan and interpreter do what decoding by recursion over the type does: the same fields, or the same violations in declaration order |
| Config.Load | config/config.go:69-167 | all four stages: schema violations, each a fault of a field and all of them; else decoding's, each the fault of one field, in order, and all of them; else the validation's; else the value, each field holding what its string means; the zero value with any violation |
| ConfigReport.ReportedExactly | config/plan.go:82-165 | a type is reported for exactly the broken tag rules, keys claimed by an earlier field and undecodable types of the fields that the walk gets to, each under its dotted path |
| Config.RejectedExactly | config/config.go:120-151 | a field with a string is reported exactly when the string means nothing for its type, and else holds what it means |
| Config.ScalarsAreRead | config/decode.go:38-89 | a scalar or self-parsing field, or a pointer to one, is rejected exactly when its parser rejects the string, and holds else what the parser says |
| Config.SlicesAreRead | config/decode.go:99-115 | an empty string is an empty slice; another is rejected exactly when one part is, and holds else what the parser says of each part |
| Config.SetKeysAreRead | config/config.go:128-130 | for every key in the source the blocks above its field are there and its string is the source's, before any default |
| Config.UnsetFieldsAreRequired | config/config.go:131-143 | a field with no string is nil if a pointer and else reported as required |
| ConfigOutcomes.FaultsFrom | config/config.go:121-151 | every violation of decoding is the fault of one field whose blocks are there, each field has one at most, and they come in the order of the fields |
| ConfigOutcomes.ClosedFieldOutcome | config/config.go:101-125 | a field below an absent block has no place in the value |
| ConfigOutcomes.PassedOverFieldsAreZero | config/plan.go:85-95 | a field that is not exported or is tagged to be skipped keeps its zero |
| ConfigTheorems.AnySetMeansSomeKey | config/config.go:98-109 | presence of a subtree means that some reachable value field's full key is in the source |
| ConfigTheorems.SetFieldsArrive | config/config.go:120-151 | on success every key of the source that a field claims stands in that field as what its string means, through blocks that exist |
| ConfigTheorems.BlockPresentExactly | config/config.go:52-57 | on success a pointer block is non-nil exactly when some key below it is set; defaults do not count |
| LogHandler.NewHandler | logging/handler.go:50-52 | a handler with nothing deferred |
| LogHandler.Slice.Clip | logging/handler.go:79 | the same contents with no room to append in place |
| LogHandler.Append | logging/handler.go:76-80 | Go's append: in place into spare capacity, else into a larger copy |
| LogHandler.Derive | logging/handler.go:69-97 | the child is on its parent's path extended by the call; nothing that exists is written |
| LogHandler.DeriveTree | logging/handler.go:58-60 | after any tree of derivations each handler's calls are those on its own path |
| LogHandler.UnclippedSiblingsCollide | logging/handler.go:58-60 | without the Clip the first of two siblings reads the other's call |
| LogHandler.Handle | logging/handler.go:99-127 | the two loops render the fast path's and the replay's tree |
| LogTheorems.HandleIsAFunctionOfThePath | logging/handler.go:69-127 | what is rendered depends on the base and the calls on the path alone |
| LogTheorems.ExtractorsLandOnTop | logging/handler.go:99-127 | over an ungrouped base the tree is plain slog's with all extractor attributes inserted side by side at the top level |
| LogTheorems.ExtractorsInOrder | logging/handler.go:107-111 | every extractor's attributes are there, whole and in the order of the extractors |
| LogTheorems.EveryExtractorIsOnTop | logging/handler.go:47-49 | over a base with no group open each attribute of each extractor is at the top level |
| LogTheorems.NoExtractorsMeansPlain | logging/handler.go:62-75 | with no extractors the tree is what plain slog renders after all the calls, over any base |
| LogTheorems.PathsAgreeUpToOrder | logging/handler.go:100-126 | fast and slow path render the same top-level nodes up to order |
| LogTheorems.TopLevelNeedsAnUngroupedBase | logging/handler.go:47-49 | an extractor attribute is at the top level exactly when the base has no open group, a group with an empty name not counting |
| LogTheorems.GroupedBaseHidesExtractors | logging/handler.go:47-49 | an input: over a base with a group open the attribute ends up inside the group |
| LogTree.RenderAfterUngrouped | logging/handler.go:115-126 | replaying on an ungrouped prefix leaves the rest of the tree as it is |
| LogTree.EffectiveRendersTheSame | logging/handler.go:69-88 | leaving out empty WithAttrs and WithGroup calls changes nothing that is rendered |
| Notifications.NotificationStore.constructor | examples/notifications/notification.go:28-33 | no item, an empty queue |
| Notifications.NotificationStore.Register | examples/notifications/notification.go:35-45 | the step that a run takes: a fresh id, one past the last, stored as queued |
| Notifications.NotificationStore.Enqueue | examples/notifications/notification.go:47 | the step that a run takes: the channel is extended |
| Notifications.NotificationStore.Get | examples/notifications/notification.go:51-56 | the stored item, if there is one |
| Notifications.NotificationStore.SetStatus | examples/notifications/notification.go:58-64 | the step that a run takes: only the status of the one item changes; an unknown id gets an entry |
| Notifications.StepOk | examples/notifications/worker.go:22-39 | every step of submitters and worker keeps conservation, unique ids, contents as submitted, and statuses as deliver went |
| Notifications.FinishedIsSettledAs | examples/notifications/worker.go:25-38 | in every state the same holds of each item that is settled |
| Notifications.AllSettled | examples/notifications/worker.go:22-49 | when the worker is gone and no submitter is left, deliver was called once for every item with what was submitted, and the item reads delivered exactly when that call succeeded and failed exactly when it did not |
| NotificationStack.BuildStack | examples/notifications/stack.go:31-67 | no construction error, these four components, edges and hooks |
| NotificationStack.BeginStack | examples/notifications/stack.go:31-67 | so Run begins with the configuration the theorems below assume, in three levels |
| NotificationStack.QueueIsConserved | examples/notifications/notification.go:35-49 | in every interleaving sent is finished, in hand and channel contents in send order; ids are unique; at most 64 are buffered |
| NotificationStack.StatusIsTheOutcome | examples/notifications/worker.go:25-38 | in every interleaving of the whole service each settled item reads as its one deliver call went, with what was submitted |
| NotificationProgress.WorkerRestsExactly | examples/notifications/worker.go:22-39 | the worker cannot move exactly before its start, after its end, and on an empty queue that is open |
| NotificationProgress.SubmitterGetsThrough | examples/notifications/notification.go:47 | a submitter waits exactly while 64 items are buffered, and two steps of a running worker then let its item through |
| NotificationProgress.StepsLeftExactly | examples/notifications/worker.go:22-39 | once the queue is closed, in every continuation each step of the worker takes it one nearer its end and nothing adds to them |
| NotificationProgress.ClosedQueueIsWorkedOff | examples/notifications/worker.go:41-49 | and it can take exactly those steps by itself, which settle every item sent |
| NotificationStack.NoSendAfterClose | examples/notifications/stack.go:52-64 | nothing is sent on the closed channel unless the API's Shutdown returned an error |
| NotificationStack.GracefulStopSettlesEverything | examples/notifications/worker.go:41-49 | then, once the worker's Stop has returned nil, deliver was called once for every submitted notification and it reads delivered or failed as that call went |
| NotificationStack.LateHandlerCanPanic | examples/notifications/notification.go:47 | from any state with the queue closed and a handler left, a continuation sends on the closed channel |
| NotificationPanic.LateHandlerPanics | examples/notifications/worker.go:41-42 | a run of the wired stack from boot, through a Shutdown that gives up, to a send on the closed channel |
| NotificationStack.NoHandlerNoPanic | examples/notifications/stack.go:52-64 | with no handler left every continuation stays free of such a send |
| NotificationStack.CloseIsSafeExactly | examples/notifications/worker.go:41-42 | such a continuation exists exactly when a handler is left |

## Left out

- The net/http transport, servers, sockets and TLS: the next transport is an arbitrary outcome or a panic of
  `RetryIf`, and a body is a byte count with a count of closes.
- Telemetry: spans and metrics pass requests through unchanged.
- Real time and randomness: times and draws are parameters; a run of the breaker uses a clock that never
  goes back, read once at each locked section.
- Panics in Start, Stop, hooks, `TripIf` and `Backoff`, which the code does not handle. A panicking transport
  is modelled for the breaker and a panicking `RetryIf` for the loop.
- Scheduling fairness: a step that is enabled may still not be taken. What is proved is that one is enabled
  and that only so many can be taken.
- DrainDelay, the stop timeouts' effect on a Stop, and the two-second limit of a readiness check: they
  bound how long a call takes, and calls take arbitrarily long here.
- Logging calls inside the lifecycle and the worker, `OnCheckError`, error texts, and JSON bodies.
- Retry.WithDefaults: does not return the default Backoff and RetryIf, because the loop is proved for
  arbitrary ones; DefaultPolicySleepsAMinute and DeadCallUsesEveryAttempt are about the default ones.
- The breaker's and the store's integer counters are unbounded; the string form of a notification's id is
  left as its number.
- Parsing of single values by strconv and time, and of the HTTP date and integer forms of Retry-After: the
  parsers are arbitrary partial functions.
- Slice types that contain themselves, which the decoder builder does not guard against: field types are
  an inductive datatype.
- A root config type that parses itself, and pointer-receiver validation that edits the struct.
- The config struct is a value; `fieldByIndexAlloc` is modelled as an update of that value, not of memory.
  A pointer block allocated before a later field fails is not visible, since the zero value is returned.
- `OSEnv`, `Dotenv` and layered sources: a source is a partial map.
- Handler `Enabled`, and a slog handler's own rendering of attribute values.
- The `orders` and `worker` examples, `AdminMux`, `Secret`, and the statusWriter wrappers.
- Backoff.ExponentialIsMonotone: does not cover a negative base or maximum, which the source does not rule
  out and for which nothing is promised.
