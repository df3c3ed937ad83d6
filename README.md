# lagbuster controller and notification limiter in Dafny

lagbuster watches the latency of a small set of BGP peers. Once per
measurement cycle it does five things:

- it takes one latency sample per peer;
- it classifies every peer as healthy or unhealthy against that peer's static baseline;
- it keeps run-length counters of consecutive healthy and unhealthy cycles;
- it decides which peer is the primary;
- after a switch, it writes a BIRD include file that gives the primary priority 1 and the other peers 2..N.

The primary is chosen by trying rules in a fixed order: failback to a preferred peer, cooldown, comfort zone, damping, and finally a ranking of the peers. Switch and health events go to a notifier. The notifier fans each event out to its channels and rate-limits each (channel, event type) pair.

This project models that per-cycle controller and the notifier, and proves properties of both.

Modules, one per file:

- `Wrappers` (`wrappers.dfy`): `Option`.
- `Settings` (`settings.dfy`): the configuration records the decisions read.
- `Health` (`health.dfy`): one peer's sample window, classification, counters and health-change event.
- `Selection` (`selection.dfy`): the rule order of `selectPrimary` as a pure function `Decide` over one snapshot, the ranking order of `findBestPeer`, and `buildSwitchReason` with its failback classification.
- `Priorities` (`priorities.dfy`): the latency sort and the rank-permutation property of `assignPriorities`.
- `BirdOutput` (`bird_output.dfy`): the `define <var> = <n>;` lines, with a parser that reads them back.
- `Monitor` (`monitor.dfy`): the `AppState` class, whose fields the cycle updates in place. Its methods are the loops of `initializeState`, `runMonitoringCycle`, `evaluatePeerHealth`, `findBestPeer`, `switchPrimary`, `assignPriorities` and `generateBirdConfig`. The invariant `Valid` says four things about every peer:
  - it is stored under its own name;
  - it is flagged primary exactly when it is the current primary;
  - the counter opposite its health flag is zero;
  - its window stays within bound.
- `Notifications` (`notifier.dfy`): the `Notifier` class. Its `lastSent` map is specified by a fold, `After`, over the channel list.
- `Scenarios` (`scenarios.dfy`): worked three-peer examples (steady state, degradation, all unhealthy, failback) derived from the general lemmas.

Representation choices:

- **Units.** Latencies are whole milliseconds and times are whole seconds, passed in as `now`. A failed sample is any negative value.
- **Last switch.** "No switch yet" is `None`; Go uses a zero `time.Time`.
- **Peers.** Each `PeerState` is a datatype value in the `peers` map field, and the methods reassign that map. Go keeps pointers and updates them through the pointer.
- **Ranking ties.** `findBestPeer` sorts with `sort.Slice`, which is unstable, over map iteration order. So its result is specified as *some* minimal peer under "healthy first, then lower latency", which is the most the source guarantees. `assignPriorities` is specified the same way, as an order by latency. An insertion sort stands in for `sort.Slice`.

Three properties of the code that the model keeps:

- Ranking ties fall to map iteration order and the unstable sort; there is no tie-break by peer name.
- `assignPriorities` orders the non-primary peers by ranking latency alone and never consults health, so an unhealthy peer can get priority 2 ahead of a healthy one.
- The code does not check that `initial_primary` names a configured peer. `selectPrimary` then reads fields through a missing map entry. The constructor therefore accepts any initial primary, as `initializeState` does, and the cycle methods require `currentPrimary in peers`, which is what the code needs of its caller.

## Model

| member | source | states |
|---|---|---|
| Health.IsPeerHealthy | lagbuster.go:504-522 | healthy iff the sample is non-negative, at most the absolute maximum, and at most the degradation threshold above baseline; a failed sample is never healthy |
| Health.PushSample | lagbuster.go:343-346 | the new window is the newest suffix of old window plus sample, ends with the sample, and a window within its bound stays within it (length min(old+1, window)) |
| Health.PushWithinBound | lagbuster.go:343-346 | one push onto a window within its bound keeps it within the bound and gives the newest part of old window plus sample |
| Health.WindowHoldsNewest | lagbuster.go:343-346 | after any series of samples the window is exactly the newest min(total, window) samples, oldest first |
| Health.RecordSample | lagbuster.go:339-346 | the peer takes the sample as current latency and pushes it onto its window; nothing else changes |
| Health.Evaluate | lagbuster.go:428-442 | the flag is the classification of the current sample, the matching counter grows by one, the other is zero (so at most one is nonzero), and no other field changes |
| Health.SameClassStreak | lagbuster.go:428-442 | over cycles whose samples are all in one class, that class's counter grows by exactly one per cycle, the other stays zero, and after a flip the counter equals the number of cycles since |
| Health.HealthTransition | lagbuster.go:445-470 | an event exactly when the flag changed; "recovered" exactly when the peer became healthy; "unreachable", "exceeds absolute max" and "degraded" each imply the matching condition on the sample |
| Health.RankingLatency | lagbuster.go:601-605 | a failed sample ranks as the timeout latency, any other sample as itself |
| Selection.Decide | lagbuster.go:525-591 | the failback rule fires iff failback is on, a preferred peer is set, is not current, exists, is healthy with enough consecutive healthy cycles, and cooldown is not both required and running; the ranking decides iff failback did not fire, there is no cooldown, the primary is not comfortable and damping is satisfied |
| Selection.FailbackOverridesCooldown | lagbuster.go:546-553 | without the cooldown requirement a ready preferred peer wins even during cooldown |
| Selection.NoCooldownBeforeFirstSwitch | lagbuster.go:530-532 | before the first switch the cooldown rule never applies |
| Selection.RankingOnlyPastAllGates | lagbuster.go:559-590 | without failback, cooldown keeps the primary, and the ranking is reached only outside cooldown, out of the comfort zone and past damping |
| Selection.HealthyPrimaryNeverRanked | lagbuster.go:559-590 | with a damping count of at least one, a healthy primary is never handed to the ranking, so only failback replaces it |
| Selection.BestPeerIsHealthiestAndFastest | lagbuster.go:601-624 | a best peer is healthy whenever some peer is, and has the least ranking latency within its health class; with all peers unhealthy it is the least-bad one |
| Selection.BuildSwitchReason | lagbuster.go:718-743 | from the old primary: healthy and comfortable gives failback (carrying the new peer's healthy count), healthy otherwise gives outside-comfort-zone, and unhealthy gives unreachable, exceeds-absolute-max or degraded, each exactly under its condition |
| Selection.Classify | lagbuster.go:647 | a switch is a failback iff the old primary is healthy and the reason mentions failback |
| Selection.RankedSwitchIsNotFailback | lagbuster.go:559-590 | a switch the ranking chose is never classified as a failback |
| Priorities.SortByLatency | lagbuster.go:811-813 | the result is ordered by ascending latency and is a permutation of the input (so names stay distinct) |
| Priorities.InsertSorted | lagbuster.go:811-813 | one insertion keeps the order and adds exactly the inserted element |
| Priorities.DistinctNameSetSize | lagbuster.go:816-818 | a duplicate-free list has as many names as entries |
| Priorities.RanksFromOrder | lagbuster.go:786-821 | primary at 1 and the i-th sorted peer at i+2 is a bijection from the keys onto 1..N |
| BirdOutput.NatToStringParses | lagbuster.go:853 | the decimal text of a natural number reads back as that number |
| BirdOutput.IntToStringParses | lagbuster.go:853 | the %d text of an integer reads back as that integer |
| BirdOutput.SplitAtFirst | lagbuster.go:853 | a line splits at the first separator after a separator-free prefix |
| BirdOutput.RenderAppend | lagbuster.go:851-854 | rendering one more binding appends exactly its line |
| BirdOutput.DefineTextParses | lagbuster.go:853 | one define line reads back as its variable and priority when the variable has no space or newline |
| BirdOutput.RenderParses | lagbuster.go:851-854 | the define lines read back as exactly the rendered bindings, one per line, in order |
| Monitor.InitialPeers | lagbuster.go:321-327 | one fresh peer per configured name, keyed by that name, primary exactly when it is the initial primary; for a repeated name the later entry wins |
| Monitor.ExactlyOnePrimary | lagbuster.go:317-327 | when the primary flags match the current primary and it is in the map, exactly one peer is flagged primary |
| Monitor.CycleKeepsPeerValid | lagbuster.go:339-346 | recording a sample and reclassifying keep a peer's part of the controller invariant |
| Monitor.RecordAll | lagbuster.go:338-346 | every peer of the map records its own sample and the key set is unchanged |
| Monitor.EvaluateAll | lagbuster.go:426-470 | every peer is reclassified, and an event is produced for, and only for, each peer whose flag changed |
| Monitor.TwoPassesAreOneCycle | lagbuster.go:336-356 | recording all samples and then evaluating all peers equals running each peer's cycle, with health flags before evaluation as before the cycle |
| Monitor.PriorityMap | lagbuster.go:794-818 | the primary gets 1, the i-th sorted peer i+2, and the map is a rank permutation |
| Monitor.OrderedByLatency | lagbuster.go:811-818 | ranks given from the sorted list order the non-primary peers by ranking latency |
| Monitor.CandidateCount | lagbuster.go:800-809 | all peers but the primary, each once, number one fewer than the peers |
| Monitor.AppState.constructor | lagbuster.go:313-333 | the configured peers, fresh, the initial primary current, no switch yet, and the invariant holds |
| Monitor.AppState.RecordSamples | lagbuster.go:338-346 | each peer's state becomes its RecordSample with its own sample; primary and switch time unchanged; invariant kept |
| Monitor.AppState.EvaluatePeerHealth | lagbuster.go:426-501 | each peer's state becomes its Evaluate; the events are exactly those of the peers whose flag changed; invariant kept |
| Monitor.AppState.FindBestPeer | lagbuster.go:594-638 | the result is a peer of the map that no other peer ranks before |
| Monitor.AppState.SelectPrimary | lagbuster.go:525-591 | failback selects the preferred peer, the cooldown, comfort and damping rules the current primary, the ranking a best peer; the result is always a key of the map |
| Monitor.AppState.SwitchPrimary | lagbuster.go:641-667 | the old primary loses its flag, the new one gains it with both counters zeroed, the current primary and switch time are set, every other peer is unchanged, the invariant is kept, and the event carries the reason and classification from the state before |
| Monitor.AppState.RankingCandidates | lagbuster.go:800-809 | every peer other than the primary exactly once, with its ranking latency |
| Monitor.AppState.AssignPriorities | lagbuster.go:786-821 | a priority assignment: the primary gets 1; the result is a bijection from the keys onto 1..N, N the number of peers when the primary is among them; non-primary peers are ranked by ascending ranking latency |
| Monitor.AppState.GenerateBirdConfig | lagbuster.go:851-854 | the text is one define line per configured peer in configuration order, and it reads back as exactly those bindings (priority 0 for a peer without one) |
| Monitor.AppState.ApplyBirdConfiguration | lagbuster.go:746-752 | the content written after a switch renders a priority assignment: primary at 1, a bijection onto 1..N, and the other peers at 2..N by ascending ranking latency |
| Monitor.AppState.MeasureAndEvaluate | lagbuster.go:338-362 | the peers end as one cycle of every peer; there is an event for exactly the peers whose flag changed, and each event carries the health transition from the flag before the cycle |
| Monitor.AppState.SelectAndSwitch | lagbuster.go:364-370 | failback always switches, the cooldown, comfort and damping rules never do, and a ranking that does not switch keeps a primary that is a best peer; a switch goes to the preferred peer or a best peer, updates only the old and new primary (new counters zeroed), reports the reason and failback classification from the state before, and yields the priorities file rendering exactly when not in dry-run mode; no switch changes nothing |
| Monitor.AppState.RunMonitoringCycle | lagbuster.go:336-374 | one cycle: every peer is measured and reevaluated, with events for exactly the peers whose flag changed and their transitions; then the select-and-switch outcome above holds, decided on that evaluated snapshot |
| Notifications.KeySameType | notifications/notifier.go:83 | two channel names give the same key for one event type only when equal |
| Notifications.KeyInjective | notifications/notifier.go:83 | with ':'-free channel names the key determines both the channel and the event type |
| Notifications.Step | notifications/notifier.go:74-97 | a round writes the key's time exactly when the channel was attempted and its send succeeded, and otherwise leaves the map alone |
| Notifications.KeyKept | notifications/notifier.go:73-98 | over rounds whose channels cannot write key k (other key, disabled, unsubscribed, failed send) the entry for k is unchanged |
| Notifications.OnlyOwnKeysWritten | notifications/notifier.go:73-98 | Notify changes no entry except the keys of enabled, subscribed channels whose send succeeded |
| Notifications.WrittenEntriesAreNow | notifications/notifier.go:96 | every entry Notify changes or adds holds this call's time |
| Notifications.ChannelOutcome | notifications/notifier.go:73-98 | with distinct channel names, a channel's key is stamped now exactly when it was attempted against the starting map and its send succeeded, and is unchanged otherwise |
| Notifications.FirstEventAttempted | notifications/notifier.go:83-84 | the first event of a type on an enabled, subscribed channel is always attempted |
| Notifications.FailedSendRetried | notifications/notifier.go:92-94 | a failed send leaves the map unchanged, so the next event for that key is attempted |
| Notifications.SuccessOpensWindow | notifications/notifier.go:84-89 | after a successful send the same key is held back for exactly rateLimitMins minutes |
| Notifications.Fanout | notifications/notifier.go:73-98 | the loop's map is the fold of Step over the channels, and a channel's Send is called exactly when it is enabled, subscribed and outside the window of the map as it stood when its turn came |
| Notifications.Notifier.constructor | notifications/notifier.go:59-66 | the given channels and rate limit, and no sends recorded |
| Notifications.Notifier.Notify | notifications/notifier.go:69-99 | lastSent becomes the Fanout fold of the old map and the channel list is unchanged |
| Notifications.Notifier.AddChannel | notifications/notifier.go:102-106 | one channel appended at the end; the others and lastSent unchanged |
| Scenarios.SteadyStateKeepsPrimary | lagbuster.go:570-580 | with every peer at baseline the primary is comfortable and kept, for any number of cycles |
| Scenarios.DegradationIsDamped | lagbuster.go:582-589 | two unhealthy cycles of a formerly healthy primary do not satisfy a damping of three |
| Scenarios.DegradationSwitchesToFastestHealthy | lagbuster.go:582-624 | on the third unhealthy cycle the ranking picks the lower of the healthy alternatives, with reason degraded by 50 ms, not a failback |
| Scenarios.AllUnhealthyPicksLeastBad | lagbuster.go:601-624 | with every peer over the absolute maximum the ranking still picks the least-bad peer |
| Scenarios.PreferredPeerFailsBack | lagbuster.go:531-557 | a preferred peer healthy for the required cycles is failed back to, classified as a failback |

## Left out

- pingHost is not modelled: it runs an external `ping` process and parses its output. Each cycle's samples are an input map.
- File I/O: writing the temporary file, renaming it and running `birdc configure` are not modelled. `ApplyBirdConfiguration` computes only the content.
- `generateBirdConfig` header and comment lines are not modelled. They carry an RFC 3339 timestamp and `%.2f` floats. Only the define lines are rendered.
- Reason strings and health-change reasons are enumerations, not the formatted text. `Selection.MentionsFailback` stands for the `strings.Contains(reason, "failback")` test: of the five templates, only the failback one contains that word.
- Logging is not modelled, nor are database records, the WebSocket broadcast, `updateAPIServerState`, notifications raised from the cycle, `loadConfig`, `main`, the ticker and the grace period. None of them feeds back into the decisions.
- Mutexes are not modelled: `Notify` and `AddChannel` are single sequential steps. Channel `Send`, `IsEnabled` and `ShouldNotify` are data: `enabled`, a subscription list, and an input sequence of send results.
- Event fields other than the type are not modelled, because the limiter does not read them.
- Source floats are integers here; fractional milliseconds and the nanosecond resolution of `time.Since` are lost.
- Source clocks become one `now` per call. Go's separate `time.Now()` readings within a call become that one `now`: in `selectPrimary` versus `switchPrimary`, and for each channel in `Notify`.
- Counters, priorities and times do not wrap; Go's `int` would wrap only after absurdly many cycles.
- The source keeps pointers to `PeerState`. The model keeps values in a map that the methods reassign, so two names can never share a state.
- `Monitor.AppState.SwitchPrimary` emits the event but does not send it to the notifier or the database. The priorities file content is produced by `SelectAndSwitch` after the state update, which is the point at which `switchPrimary` applies it.
- `Monitor.AppState.AssignPriorities` and `FindBestPeer` require a non-empty peer map: the source panics on an empty one (`make` with capacity −1; `scores[0]`).
- `Monitor.AppState.constructor` requires a non-negative measurement window: `make` panics on a negative capacity.
- `Monitor.AppState.FindBestPeer`: the contract says *a* minimal peer, not which of several tied peers; the source leaves ties to map order and an unstable sort.
