# Verified model of go-appkit's stateful cores

go-appkit is a Go framework for HTTP services. This project models the parts of it
whose correctness depends on order, interleaving or text that is printed and read
back, and proves what they promise.

* **SSE replay and live delivery** (`realtime/handler.go`). `RealtimeHandler` holds the
  handler's own loops on a stream that may stop accepting writes. `RealtimeProtocol` is
  the same connection interleaved with any number of producers that first append to the
  store and later broadcast into a bounded channel. `RealtimeDelivery` and
  `RealtimeRepeats` prove what one connection delivers and when it repeats itself,
  `RealtimeSerial` and `RealtimeLoss` what a client receives over whole runs of connects,
  losses and reconnects.
* **Service lifecycle** (`service.go`). `Lifecycle` is the state machine of repeated
  Starts, concurrent Shutdown and Close calls and one forwarder goroutine per serve;
  `Service` is the object itself with its hook loop, `LifecycleRuns` builds complete
  cycles, and `LifecycleWindow` lets Shutdowns fall into Start's window.
* **sd_notify** (`systemd/`). `Systemd` has the counters, the keepalive loop, the hooks
  and the timing bound; `SystemdCycle` mounts the hooks on any run of `Lifecycle`;
  `SystemdRestart` is about the keepalive of a service started again.
* **Configuration loader** (`config/`). `ConfigFields` walks the target type,
  `ConfigParse` and `ConfigFile` turn text into values and files into text,
  `ConfigLayers` and `ConfigLoader` apply the four layers, `ConfigErrors` is the error
  tree, `ConfigPrecedence`, `ConfigProblems` and `ConfigOrder` prove what a load
  means.
* **Content-Security-Policy** (`security/csp.go`, `security/csp_nonce.go`). `Csp` has the
  builder, the nonce editor and the policy a reader of section 2.2.1 of W3C Content
  Security Policy Level 3 gets from built policies; `PolicyReading` is what that reader
  gets from any edited one.
* **Metrics** (`metrics.go`). `Labels` (escaping), `Histogram` (one series), `Metrics`
  (the collector, its scrape and request conservation).
* **Command drain** (`cqrs/commands.go`, `cqrs/domain.go`) in `Commands` and
  `CommandDrains` (drain loops among running commands), and the **capture cooldown** (`flightrecorderhealth/adapter.go`) in `Cooldown`.

`Text`, `Sorting`, `Permutations` and `Options` are shared vocabulary. Objects the Go
code updates in place are classes with the same fields, loops are loops, and every method
is proved against a function of its inputs or of the old state; protocols are state
machines whose runs are arbitrary sequences of enabled steps. A Go map is walked by
choosing any remaining key, so what is proved of a walk holds for every order.

## Where the code differs from its comments

The model follows the code. The lemma named proves the difference.

* `realtime/handler.go:72-74` says a reconnect replays exactly the gap. It does so exactly
  when nothing later got through before the disconnect (`ReconnectHealsExactly`), and a run
  in which something did is built in `UnhealedLossIsReachable`. A cursor event whose
  broadcast is still pending is delivered again (`PendingCursorIsDeliveredTwice`).
* `realtime/handler.go:139-142` says the dedup keeps delivery exactly-once. Some run sends an
  event twice on one connection exactly when there are a store, a channel with room, and a
  wanted event without an ID behind an event whose ID a client can present
  (`SentTwiceExactly`; `NamesakeSuffices` is the boundary case). Repeated IDs do no harm by
  themselves.
* `service.go:345` and `service.go:352` say hooks run at most once per service. They run at
  most once per successful Start (`OneDrainPerServe`, `EachServeFollowsTheScript`), and a
  service that is started twice runs them twice (`RestartRunsHooksAgain`).
* `service.go:184` reads the active serve without the lock. A start whose hooks all succeed
  panics exactly when some Shutdown took its serve at any moment between publishing and that
  read (`StartPanicsExactly`); such a run exists for every configuration
  (`EarlyShutdownPanics`).
* `systemd/hooks.go:73-75` says the keepalive runs from READY=1 until Shutdown fires. The
  stop channel is made once for all cycles, so before its own stop hook a watchdog can end
  exactly when another cycle's has run (`KeepaliveEndsEarlyExactly`). For the newest
  cycle that is an earlier one; a two-cycle run in which the second keepalive can end before
  a single ping is built in `SecondCycleCanLoseItsKeepalive`.
* `config/parse.go:100-102` says `0755` must fail. In base ten it is 755
  (`OctalLookingIsDecimal`).
* `config/parse.go:14-17` and `config/config.go:83-87` promise an error for whatever cannot
  be bound. Binding a list of a named string type panics, and so does setting a tagged,
  unexported embedded field that is not a struct (`PanicsExactly`).
* `config/fields.go:19-20` says an environment key is never empty. It is empty exactly when
  the field's own tag has an empty name and no struct on its way is tagged
  (`EnvKeyIsEmptyExactly`, `EmptyEnvKeyWitness`); the environment layer then says nothing for
  it (`EmptyKeyIsSilent`). An unsupported nested field is reported under its bare tag name,
  without the prefixes (`WalkIsPartition`).
* `security/csp_nonce.go:48-49` says an already-present nonce is not duplicated. That holds
  exactly for nonces that print as one token, or when there is no script-src
  (`IdempotentExactly`).
* `security/csp_nonce.go:46-47` says the nonce is added to the script-src directive. The name
  is matched exactly, while the standard matches it in any case and skips directives that
  are not ASCII. To a reader the nonce arrives exactly when the script-src it keeps is the one
  edited and the nonce is ASCII, or has the token already, or there is none
  (`NonceReachesReaderExactly`). Three policies in which it does not arrive:
  `MixedCaseMissesNonce`, `ForeignDirectiveTakesNonce`, `ForeignNonceDropsDirective`.
* `metrics.go:114` promises exact Prometheus histogram semantics, but `metrics.go:262`
  overwrites the running value, so the `le` lines are not cumulative
  (`EmittedLinesCorrectExactly`).
* `metrics.go:232` and `metrics.go:279` escape twice: such a label can be read exactly when
  each character is a line feed or printable, and reads back as itself exactly when each is
  printable and none needed escaping (`DoublyEscapedLabelReadsBack`).
* `metrics.go:157` is not deferred, so a panicking handler leaves the in-flight gauge up
  (`RequestsAreConserved`).

## Model

| member | source | states |
|---|---|---|
| Realtime.KeptMeaning | realtime/handler.go:255-275 | the replayed positions are exactly the wanted ones of the range, in strictly increasing order |
| RealtimeHandler.EventsAfter | realtime/handler.go:255-275 | all three read paths (no filter, filtering store, filtering here with panics as non-matches) return the wanted events after the cursor, or the read error |
| RealtimeHandler.MissedIsRest | realtime/handler.go:208-277 | the read returns exactly the wanted events behind the first one with the client's ID, by their positions in the log |
| RealtimeHandler.MissedWithoutCursor | realtime/handler.go:208-224 | an unknown ID gives nothing, and there is no result exactly when the store fails |
| RealtimeHandler.SnapshotIsStoreRead | realtime/handler.go:203-212 | every reachable snapshot step of the protocol is the handler's read with the client's cursor, and replays nothing without a store or a cursor |
| Realtime.DroppedExactly | realtime/handler.go:294-310 | an event is dropped if and only if a filter turns it down or panics on it |
| RealtimeHandler.ReplayMissedEvents | realtime/handler.go:193-247 | what is written and recorded as replayed, and when the connection is given up: store failure (announced first) or a refused write |
| RealtimeHandler.ForwardLive | realtime/handler.go:143-173 | the live loop writes the inbox minus the named duplicates of the replay, up to the first refused write |
| RealtimeHandler.Handle | realtime/handler.go:112-136 | one whole connection writes the replay and then the undupped inbox, cut where the client is gone |
| RealtimeHandler.ConnectionWritesHandlerOutput | realtime/handler.go:79-137 | in every interleaving the protocol machine writes exactly what the handler's loops write for that snapshot and inbox |
| RealtimeProtocol.StepKeepsInv | realtime/handler.go:104-135 | for any log, filter, capacity and interleaving: nothing wanted since the subscription is anywhere but in flight, dropped, taken or queued, and the stream is the snapshot range plus the undupped channel |
| RealtimeRepeats.NoEventIsSentTwice | realtime/handler.go:139-165 | unless a wanted event without an ID lies behind a nameable one, no connection sends an event twice, whatever the IDs and under any interleaving of producers |
| RealtimeRepeats.SentTwiceExactly | realtime/handler.go:158-165 | some run sends some event twice on one connection if and only if there are a store, room in the channel, and a wanted unnamed event behind one whose ID is the first cursor or that of a receivable event |
| RealtimeRepeats.NamesakeSuffices | realtime/handler.go:158-165 | the boundary case: the nameable event need not be wanted, and the event that lends its ID may come after the repeated one |
| RealtimeDelivery.DeliveredUnlessDropped | realtime/handler.go:112-135 | every wanted event after the cursor whose broadcast is over is sent, in the replay list or in the channel, if and only if it was not both appended after the snapshot and met by a full channel |
| RealtimeDelivery.ReplayFollowsCursor | realtime/handler.go:203-212 | a replay starts just after the event the client named |
| RealtimeRepeats.RepeatIsReachable | realtime/handler.go:112-135 | whenever that condition holds, a run from the empty service that sends the event twice |
| RealtimeSerial.LossyDeliveryIsInOrder | realtime/handler.go:72-74 | with serialized publishes and any losses, what the client sees over all connections is in strictly increasing log order |
| RealtimeSerial.ReconnectHealsExactly | realtime/handler.go:72-74 | a reconnect replays a lost event if and only if the client has a cursor and received nothing later |
| RealtimeSerial.ExactlyOnce | realtime/handler.go:58-74 | without overflow, what is received over any run of reconnects is a gap-free, duplicate-free, in-order prefix of the wanted log after the first cursor, and all of it once nothing is pending |
| RealtimeLoss.ReceivedGrows | realtime/handler.go:153-170 | no step but a receipt changes what the client has, and a receipt adds just that event |
| RealtimeLoss.CursorExactly | realtime/handler.go:203-206 | the client names the last event with an ID that it has received, else its first cursor |
| RealtimeLoss.StartIsSubscription | realtime/handler.go:112-124 | without a first cursor that prefix starts where everything was still to be broadcast at the delivering subscription, and stays there |
| RealtimeLoss.UnhealedLossIsReachable | realtime/handler.go:70-74 | with serialized publishes and a channel of one place, a run in which an event is dropped, a later one received, and the reconnect does not replay the first |
| RealtimeSerial.PendingCursorIsDeliveredTwice | realtime/handler.go:112-124 | while the cursor event is still to be broadcast, a reconnect can deliver it twice without any loss |
| RealtimeSerial.PendingCursorIsReachable | realtime/handler.go:112-124 | such a moment is reached by a serialized, lossless run from any log of two events |
| Lifecycle.StepKeepsInv | service.go:132-322 | every step of any Start, Shutdown, hook loop or forwarder keeps each serve on its script and each channel within its protocol |
| Lifecycle.ServeChannelProtocol | service.go:182-209 | each serve is claimed and signalled at most once, its error channel gets at most one value into an empty buffer, nil only after the signal, a failure only as the server reported it, and a failure found by the peek wins |
| Lifecycle.PeekedFailureWins | service.go:193-199 | a failure that the server has reported by the peek is what the caller gets, else the forwarder goes on to wait |
| Lifecycle.OneDrainPerServe | service.go:249-258 | no two Shutdown calls drain the same serve |
| Lifecycle.EachServeFollowsTheScript | service.go:156-310 | each serve shows a prefix of one script: start hooks, launch, readiness down, drain hooks with the listener open, close, signal, shutdown hooks; a failed start shows its start hooks and the close only; a serve nobody drains shows no drain or shutdown hook |
| Lifecycle.ScriptInFull | service.go:156-310 | that script, event by event |
| Lifecycle.ReadyUntilFirstDrain | service.go:411-417 | over all restarts the probe is up if and only if no drain has begun |
| LifecycleRuns.ReadinessNeverRises | service.go:262 | once down, the probe stays down in every run |
| LifecycleRuns.RestartRunsHooksAgain | service.go:344-356 | a run of two complete cycles in which both serves show the full script, every hook included |
| Lifecycle.SignalResolvesForwarder | service.go:298-302 | after the graceful signal the forwarder can always deliver its value |
| LifecycleWindow.StartPanicsExactly | service.go:156-209 | with Shutdowns at any moment, a start whose hooks all succeed panics if and only if some Shutdown took its serve at any time in the window, else it launches; a start with a failed hook never panics |
| LifecycleWindow.PanickedExactly | service.go:182-184 | a run has panicked if and only if some start has, and each such start was taken and had no failed hook |
| LifecycleWindow.EarlyShutdownPanics | service.go:159-184 | for every configuration, a run that shuts down before the first start hook and panics after the last |
| Service.FailuresAreExact | service.go:364-376 | the joined error lists exactly the failing hooks, in order, each with its own index and classification |
| Service.Service.RunHooks | service.go:364-376 | every hook runs despite failures, and the failures are collected |
| Service.Service.Start | service.go:132-210 | each way to fail leaves no listener; success launches after all start hooks |
| Service.Service.Shutdown | service.go:246-322 | without a listener nothing happens; otherwise the whole drain script, one signal, and exactly the failing drain hooks, the server's own failure around its cause, and the failing shutdown hooks, each once and in this order; no error if and only if nothing failed |
| Service.JoinedReports | service.go:293-312 | the joined error is that list |
| Systemd.Counters.Notify | systemd/notify.go:73-95 | the four counters always count the successful sends of their kind and all failures in the log of attempts |
| Systemd.CountsExactly | systemd/notify.go:16-31 | a counter is the number of delivered messages of its kind, or of failed sends; nothing counts without a socket |
| Systemd.Counters.RunWatchdog | systemd/notify.go:114-135 | one ping for each tick, failed or not, until stop is seen |
| SystemdCycle.InstalledIsMounted | systemd/hooks.go:50-56 | running the lists that Install leaves sends and stops exactly what the mount behind the consumer's hooks says |
| Systemd.Hooks.Start | systemd/hooks.go:88-122 | only a failed send fails the start; the keepalive starts exactly when READY went out and a watchdog is asked for |
| Systemd.Hooks.Shutdown | systemd/hooks.go:135-139 | the stop channel is closed once however often the hook runs |
| Systemd.SignalIsRecent | systemd/notify.go:114-135 | at every moment the last signal is at most (m + 1) periods and the lateness old when at most m pings in a row are lost |
| Systemd.DeadlineIsMetExactly | systemd/hooks.go:115-117 | with ticks on time, pinging at half the interval, rounded down, meets the deadline at every moment of the run if and only if no two pings in a row are lost |
| SystemdCycle.RunKeepsSdInv | systemd/hooks.go:83-140 | every step of the lifecycle and of the watchdogs keeps each cycle's log in order, and a closed stop channel stays closed |
| SystemdCycle.EveryCycleIsOrdered | systemd/hooks.go:87-139 | in every cycle nothing is sent before READY, READY and STOPPING go out at most once, READY before the launch and STOPPING before the close; a launched cycle under systemd has announced itself |
| SystemdCycle.EventSends | systemd/hooks.go:87-139 | what each lifecycle event sends, starts and stops: READY, STOPPING, a watchdog and the stop channel, exactly at their hooks |
| SystemdRestart.WatchdogEndsExactly | systemd/hooks.go:83-138 | in every run a live watchdog can end if and only if some cycle has run its stop hook |
| SystemdRestart.KeepaliveEndsEarlyExactly | systemd/hooks.go:73-75 | before its own stop hook a watchdog can end if and only if another cycle's has run; for the newest cycle, an earlier one's |
| SystemdRestart.SecondCycleCanLoseItsKeepalive | systemd/hooks.go:73-75 | for every configuration under systemd with a watchdog, a run in which the second cycle is announced and its watchdog can end before a single ping |
| ConfigFields.CollectFields | config/fields.go:63-130 | the recursive loop yields the bindings and the errors of the walk, and panics exactly when the walk does |
| ConfigFields.WalkIsPartition | config/fields.go:30-130 | one item, in field order, for each tagged leaf reachable through walked structs and for nothing else; a binding if and only if its type is supported |
| ConfigFields.KeysOfBinding | config/fields.go:111-126 | a binding's path is its dotted names, its file key the lower case of that, its environment key the concatenated tag prefixes, and whether reflection may set it |
| ConfigFields.TagIsRead | config/fields.go:80-81 | a tag's name is its part before the first comma |
| ConfigFields.RequiredExactlyWhenSaid | config/fields.go:117-149 | a binding is required if and only if a later part of its tag, trimmed, says so |
| ConfigFields.RefusalExactly | config/fields.go:100-110 | a refusal names the dotted path and the tag's bare name |
| ConfigFields.SupportedExactly | config/parse.go:18-35 | the types that can be bound |
| ConfigFields.EnvKeyIsEmptyExactly | config/fields.go:19-21 | a binding's environment key is empty if and only if its own tag name is empty and no struct on its way is tagged |
| ConfigFields.EmptyEnvKeyWitness | config/fields.go:80-118 | one exported field that is bound under the empty key |
| ConfigFields.BindingsAreApart | config/fields.go:83-90 | no index path of a binding is a prefix of another |
| ConfigFields.WalkPanicsExactly | config/fields.go:43-44 | the walk panics if and only if it reaches an untagged embedded field without fields of its own |
| ConfigParse.ParseList | config/parse.go:51-58 | splits at commas and trims every part in place |
| ConfigParse.IntRoundTrip | config/parse.go:71-84 | a printed integer reads back as itself if it fits the signed or unsigned field, and is refused otherwise |
| ConfigParse.Widths | config/parse.go:71-84 | what fits 8, 16, 32 and 64 bits, signed and unsigned |
| ConfigParse.PlusSign | config/parse.go:71-84 | a plus sign changes nothing for a signed field and is refused for an unsigned one |
| ConfigParse.BoolWords | config/parse.go:69-70 | the twelve words a boolean field takes |
| ConfigParse.ZeroForms | config/config.go:298 | which raw strings leave a required field zero; none does for a list |
| ConfigParse.LibraryParsers | config/parse.go:42-91 | durations and floats are what the libraries say |
| ConfigParse.OctalLookingIsDecimal | config/parse.go:100-102 | a leading zero changes nothing, for signed and unsigned fields |
| ConfigParse.ListRoundTripExactly | config/parse.go:51-58 | a joined list comes back, trimmed, if and only if it is not empty and comma-free |
| ConfigFile.ValueToString | config/file.go:86-126 | the recursive printer, stopping at the first refused item |
| ConfigFile.RenderedExactlyWhenPlain | config/file.go:83-126 | a value prints if and only if nothing in it is null, exotic or a tree |
| ConfigFile.FileRoundTrip | config/file.go:86-112 | what arrives in an integer, boolean or list field from a file value |
| ConfigFile.TextRoundTrip | config/file.go:88-99 | text arrives as it is, a real number as its decimal form is read |
| ConfigFile.FlatKeyIsJoin | config/file.go:56-60 | a flat key is the lower-case names on its way, joined with dots |
| ConfigFile.BadLeavesAreReported | config/file.go:68-73 | every value without a raw string has its error, under its key and for its first offending part, and there are no others |
| ConfigFile.Flatten | config/file.go:51-81 | for every walking order: each entry is some leaf's, each leaf's key has an entry, and there is one error for each bad leaf |
| ConfigFile.OneEntryPerLeaf | config/file.go:56-77 | without collisions each leaf keeps its own entry and there are no others |
| ConfigFile.EntriesDoNotDependOnOrder | config/file.go:56-77 | a collision-free tree flattens to one map, whatever the order |
| ConfigFile.ErrorsDoNotDependOnOrder | config/file.go:56-77 | any tree gives the same errors, counted with repetitions |
| ConfigFile.CollisionLeavesAChoice | config/file.go:57 | two keys that differ only in case leave either value possible |
| ConfigErrors.FieldErrorsOf | config/config.go:367-396 | the appending walk lists the field errors of the tree in order |
| ConfigErrors.RejectionListsItsErrors | config/config.go:336-340 | listing undoes wrapping: every field error once, in order, causes not searched |
| ConfigErrors.WrappingHidesNothing | config/config.go:383-390 | wrapping a rejection again changes nothing |
| ConfigLoader.Loading.ApplyDefaults | config/config.go:202-210 | the default layer's writes, in field order |
| ConfigLoader.Loading.ApplyFile | config/config.go:212-242 | the file layer's writes in some order of its keys, or its errors and no writes |
| ConfigLoader.Loading.ApplyEnv | config/config.go:244-257 | the environment layer's writes, empty as unset |
| ConfigLoader.Loading.ApplyValues | config/config.go:259-277 | the flag layer's writes in some order of its names |
| ConfigPrecedence.SpecByPathExactly | config/config.go:307-315 | the first binding whose folded path is the folded name is found, whenever there is one |
| ConfigPrecedence.LastWithExactly | config/config.go:224-230 | the last binding with a file key is found, whenever there is one |
| ConfigPrecedence.FoldsAlike | config/config.go:309 | comparing without case is comparing the folded texts |
| ConfigLoader.Loading.CheckRequired | config/config.go:292-305 | one error for each required field that holds its zero value |
| ConfigLoader.Load | config/config.go:170-200 | the whole load, with its early returns, returns what the four layers as one list of writes give for some order of its map walks |
| ConfigPrecedence.HighestLayerWins | config/config.go:83-87 | on success each bound field holds what its non-empty flag parses to, else its non-empty environment value, else its file value, else its default, else zero |
| ConfigPrecedence.LoadedIsResolved | config/config.go:170-200 | so does every configuration that a load can return |
| ConfigPrecedence.EmptyKeyIsSilent | config/config.go:244-248 | a binding without an environment key hears nothing from the environment |
| ConfigPrecedence.OtherFieldsAreUntouched | config/fields.go:96-98 | no layer writes a field that is not a supported tagged leaf |
| ConfigPrecedence.FailsExactly | config/config.go:183-199 | a load succeeds if and only if the type, the file, every key, every offered raw string (that it parses and can be set), every required field and the validation hook are in order |
| ConfigPrecedence.PanicsExactly | config/config.go:319-328 | a load panics if and only if the walk does, or the type is fine and some layer offers a raw string for a list of a named string type or one that parses for an unexported field |
| ConfigPrecedence.RejectionListsTheLayers | config/config.go:183-199 | the field errors of a rejected load are the type's alone, or those of the four layers, the required fields and validation, in this order |
| ConfigProblems.RejectionListsExactly | config/config.go:202-328 | an error is listed if and only if it is that of a raw string that does not parse (under the field's path and the key it came by), an unknown file key, an unknown flag, the file itself, a required field left zero, or the validation hook |
| ConfigOrder.LoadDoesNotDependOnOrder | config/config.go:229-276 | without collisions of file keys or flag names, any two loads of the same settings return the same configuration, the same errors counted with repetitions, or both panic |
| Csp.BuildCSP | security/csp.go:75-125 | the printed text is the meant policy, directive after directive in name order |
| Csp.SortedByName | security/csp.go:122 | sorting the rendered lines sorts the directives by name |
| Csp.BuiltPolicyIsMeant | security/csp.go:75-125 | read by the standard, the text has exactly the nine meant directives with their source sets if and only if the nonce and the configured sources are ASCII |
| Csp.BuiltPolicyGrants | security/csp.go:75-125 | the policy the standard reads from the text, directive by directive, source by source |
| Csp.SwitchesGrantExactly | security/csp.go:87-117 | inline styles, web sockets, JSON-LD and the nonce are granted if and only if asked for, where they belong, or listed by the caller |
| Csp.AddNonceToScriptSrc | security/csp_nonce.go:51-80 | the loop computes the edit of the parsed directives |
| Csp.DirectivesOfJoin | security/csp_nonce.go:54-59 | printing clean directives and parsing them gives the same directives |
| Csp.OnlyFirstScriptSrcChanges | security/csp_nonce.go:61-77 | for every text, only the first script-src changes, and it gains the nonce at its end unless it has it |
| Csp.AddingIsIdempotent | security/csp_nonce.go:69-71 | adding the same well-shaped nonce again changes nothing, whatever the text |
| Csp.IdempotentExactly | security/csp_nonce.go:46-50 | repeating the call changes nothing if and only if the nonce prints as one token or there is no script-src |
| Csp.EditorAgreesWithBuilder | security/csp.go:87-96 | editing a policy built without a nonce means the policy built with it, and is the same text if and only if JSON-LD is off |
| PolicyReading.EditAsRead | security/csp_nonce.go:51-80 | what the standard reads after the edit, for every serialized policy with ASCII white space: the edited directive is lost with a nonce outside ASCII, gains the token if it is the script-src the reader keeps, and is not seen otherwise |
| PolicyReading.NonceReachesReaderExactly | security/csp_nonce.go:46-77 | the reader's script sources gain the token and nothing else changes if and only if its script-src (the first ASCII one, in any case) is the one edited and the nonce is ASCII, or it has the token, or there is none |
| PolicyReading.MixedCaseMissesNonce | security/csp_nonce.go:62-65 | a mixed-case policy whose reader never gets the nonce |
| PolicyReading.ForeignDirectiveTakesNonce | security/csp_nonce.go:61-77 | a policy whose first script-src is not ASCII: the editor amends it, the reader keeps the second and gets nothing |
| PolicyReading.ForeignNonceDropsDirective | security/csp_nonce.go:67-74 | with a nonce outside ASCII the reader of `script-src 'self'` is left without script-src |
| Labels.EscapeIsOnePass | metrics.go:301-307 | the three replacements are one single-pass escape |
| Labels.EscapedLabelReadsBack | metrics.go:257 | by the text exposition format's rule every escaped label reads back as itself and ends at its closing quote |
| Labels.DoublyEscapedLabelReadsBack | metrics.go:279-280 | a twice-escaped label can be read if and only if each character is a line feed or printable, and reads back as itself if and only if each is printable and none is special |
| Histogram.RouteSeries.Observe | metrics.go:171-182 | one observation in place |
| Histogram.BucketsMeanIntervals | metrics.go:171-182 | bucket i holds exactly the durations above the previous bound and at most its own; the last bucket, the count and the sum hold all |
| Histogram.RunningSumsCount | metrics.go:112-119 | running sums count the durations at or below each bound and never decrease |
| Histogram.EmittedLines | metrics.go:260-265 | what the loop prints: the single buckets |
| Histogram.CumulativeLines | metrics.go:260-265 | the loop with the missing addition prints the running sums |
| Histogram.EmittedLinesCorrectExactly | metrics.go:262 | the printed lines are the promised counts if and only if no duration is at or below the last bound but one |
| Metrics.Collector.Finish | metrics.go:154-182 | the second locked section adds this request, under its method, its route or `unmatched`, and its status, to what the series are the histograms of, and lowers the gauge |
| Metrics.Collector.SortedRoutes | metrics.go:285-293 | the series in strictly ascending order, whatever the map order |
| Metrics.Collector.Scrape | metrics.go:212-227 | one histogram block and one total for every series with a finished request, in the same order; each shows the bucket counts, the sum and the count of its own durations, under labels that read back |
| Metrics.SeriesAreHistograms | metrics.go:159-182 | in every interleaving each series is the histogram of the durations finished under its key, in order, and exists if and only if there is one |
| Metrics.KeyLessExactly | metrics.go:286-291 | the order is by method, then route, then status |
| Metrics.OneExpositionOrder | metrics.go:284 | the exposition order is determined by the set of series |
| Metrics.RequestsAreConserved | metrics.go:133-183 | in every interleaving requests entered are in flight plus counted, and the gauge is running plus panicked requests |
| Commands.MergeDomain | cqrs/domain.go:58-90 | who is outermost and who wins, for every field of the merged domain |
| Commands.DerivedOptionsWin | cqrs/eventservice.go:515-550 | in the merged domain the logger, flight recorder and metrics are the wrapper's when it has them, dead letters go to the consumer's store, else the one built, when configured, and every other host option is the consumer's, else the domain's |
| Commands.TrackerCoversTheChain | cqrs/commands.go:137-146 | whatever the layers do, panics and retries included, a dispatch enters first, exits last and does the rest in between |
| Commands.InFlightTracker.Drain | cqrs/commands.go:173-187 | while others enter and leave between its looks at the count, the loop returns nil if and only if a look it reaches reads zero, and the error if and only if it is cancelled after a positive one |
| Commands.PendingCountsCommands | cqrs/commands.go:149-160 | in every interleaving the count is the number of commands inside the chain |
| Commands.InnerLayersRunCounted | cqrs/domain.go:65-72 | whenever an inner layer or the handler acts, the count is at least one |
| Commands.EmptyMeansAllLeft | cqrs/commands.go:170-187 | the count is zero if and only if every command that entered has left |
| CommandDrains.DrainedMeansAllLeft | cqrs/commands.go:170-187 | in every interleaving a drain that returned nil did so at a look that read zero when every command that had entered had left; all that entered before it began have left for good |
| CommandDrains.DrainWaitsForEarlierCommands | cqrs/commands.go:170-187 | for every run with a drain beginning in between: when it has returned nil, every command that had entered before it began has left |
| CommandDrains.CancelledMeansNeverEmpty | cqrs/commands.go:177-183 | a drain that gave up never read zero, and some command was inside at its last look |
| CommandDrains.LookEndsExactly | cqrs/commands.go:177-187 | a look ends the drain if and only if every command that has entered has left |
| Cooldown.Trigger.RecordHealthCheck | flightrecorderhealth/adapter.go:177-236 | when a batch captures and what it stamps; the results are handed back untouched |
| Cooldown.Trigger.RunBatches | flightrecorderhealth/adapter.go:205-219 | a run of locked sections captures what the decision function says |
| Cooldown.CapturesExactly | flightrecorderhealth/adapter.go:205-217 | a batch the recorder would capture is captured if and only if the cooldown is off or every earlier capture is at least the cooldown old |
| Cooldown.CooldownSeparatesCaptures | flightrecorderhealth/adapter.go:196-219 | with a monotone clock any two captures are at least the cooldown apart |
| Cooldown.CooldownBoundsWindows | flightrecorderhealth/adapter.go:127-135 | a window of length W holds at most W / cooldown + 1 captures |
| Cooldown.FailingServiceNames | flightrecorderhealth/adapter.go:242-254 | exactly the failing services, in strictly ascending order, whatever the map order |

## Left out

- go-sse itself: the broadcaster is taken as a bounded, non-blocking send for each subscriber, and the store as one that returns what follows the first event with the given ID and nothing for an unknown ID.
- A store failure appears in `RealtimeHandler`; in the protocol machine it is a disconnect. The retry hint, heartbeats and CORS headers are not modelled.
- Sockets, `http.Server`, signals, timers of the drain wait and log lines. `Run` is a Start followed by a Shutdown or a failure.
- Lifecycle runs start no service that is already running and put no Shutdown inside Start's window; `LifecycleWindow` drops the second assumption and shows why it is made elsewhere.
- Reading files and decoding YAML or JSON: a load starts from a decoded tree, an unusable file, or none. A JSON number is known by its shortest decimal form.
- `time.ParseDuration` and float parsing and printing are parameters; a float is its bit pattern. `strings.ToLower` and `strings.EqualFold` are any mappings of single characters.
- The text of error messages; an error is its place in the tree, its kind, field and key.
- `config.Keys`, which sorts what `KeysOfBinding` describes.
- The validation hook only reads the configuration.
- Metrics lines are records of their label and value texts; the wording of the surrounding lines and `%g` are not modelled. What Go calls printable outside ASCII is a parameter of `%q`.
- Go strings that are not valid UTF-8: text is a sequence of Unicode characters.
- A cooldown of zero or less turns the limit off; the spacing lemmas speak of a positive one.
- Policies with a vertical tab or with white space outside ASCII, which the editor counts as white space and the standard does not; and header values with a comma, which the standard reads as several policies.
- The order in which a health batch's representative error is picked.
- Command middleware that runs the rest of the chain in another goroutine and returns first: layers run one inside the other, so every inner effect falls between the tracker's two.
- The dead-letter store and the projection host behind the merged domain; only who supplies each part, and which host option wins, is modelled.
- `otel`, `docs`, `errorpages`, `flightrecorder`, `health`, `preset`, `httpx`, the rest of `security`, `logger.go`, `version.go`, `shutdown.go`: wrappers and tables that would only add easy members.
