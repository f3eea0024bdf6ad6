# Swarm visualizer server: a verified model

The server polls a Docker Swarm, redacts what it fetched, and fans snapshots out to
WebSocket clients; an OpenID Connect login guards it. This project models the parts
of it that are protocols, shared-memory algorithms or caches, and proves what its
comments and documentation promise about them. `dafny verify dfyconfig.toml` checks
the whole.

How the modules follow the program:

- **Path clearer** (`internal/utils.go`, `splitList` of `internal/config/config.go`).
  `PathSyntax` reads and prints paths; `Values` has typed values and their zeroes;
  `PathClear` says what clearing a path does and has its algebra; `PathMatch` says
  what a path means, location by location; `PathWalk` is the code, with its error
  returns and the writes that reflection refuses; `PathRefusals` tells errors and
  refused writes from the locations alone.
- **Poller** (`internal/docker/inspect.go`). `StoppedTasks` is the stopped-task cache.
  `Memory`, `Snapshots` and `SnapshotClear` model values whose pointers, slices and
  maps are shared: a snapshot, the cached groups, the cached tasks and the previously
  published snapshot refer to the same objects and are cleared in place. `Shallow` and
  `Bystanders` say exactly which paths leave other snapshots alone. `Inspector` has the
  poller's variables and every step as a function of them, down to the comparison of
  shared memory, with the invariant the steps keep; `Polling` the loop and what holds
  over runs; `Provenance` which fetches a frame comes from; `Frames` what a frame hides
  and that it hides nothing else. `Slices`, `Traps` and
  `HarmfulRuns` construct, for every list of paths that is not harmless, a run that
  misses a change, and so make the condition exact; `NumberedPaths` has examples.
  `Sanitize` is the redaction that services ask for in their own labels.
- **Hub** (`internal/docker/handlers.go`). `HubProtocol` is the fan-out as a step
  relation, one action per channel operation of the broadcaster; `HubRuns` has its
  guarantees over whole runs; `HubObject` the methods that update the hub's fields,
  each proved to take a step of the protocol. `Keepalive` is the read deadline.
- **Pipeline** composes poller and hub: from what the swarm reports to what a client
  is handed.
- **Authentication** (`internal/oauth`). `RateLimit` is the per-address limiter table,
  `LoginFlow` login and callback as one browser's cookies see them, `KeyStore` the
  signing keys with every lock section an action of its own.

Where code and comments disagree, the model follows the code:

- Two comments say that any frame extends the read deadline
  (`internal/docker/handlers.go:88-92`, `:174-177`). Only pongs do:
  `Keepalive.MessagesDoNotCount`.
- On-demand key refreshes are announced as at least a minute apart
  (`internal/oauth/jwks.go:19-22`). Two requests that both check before either stamps
  start two at once: `KeyStore.RaceDefeatsThrottle`; `KeyStore.ThrottleIsExact` says
  when the promise holds.
- When service labels are hidden globally, they are dropped before a service's own
  list of variables to hide is read (`internal/docker/inspect.go:343-352`), so that
  list is ignored: `Sanitize.ListsHonouredExactly` gives the exact condition.
- Clearing again is said to leave the previous snapshot unchanged
  (`internal/docker/inspect.go:108-111`). A path that names a task by its number and
  goes on behind a pointer, slice or map can change it, unless what it would change
  there is cleared from every task anyway, or an earlier path of the list has removed
  the reference. Lists without such a path are exactly those for which the promise
  holds over all runs of the poller (`HarmfulRuns.IntactExactlyIfHarmless`), and
  exactly those with which no change stays unpublished
  (`HarmfulRuns.PublishedExactlyIfHarmless`). The condition depends on the types, the
  flags and the list alone.

## Model

| member | source | states |
|---|---|---|
| PathSyntax.SplitPath | internal/utils.go:142-172 | the byte-by-byte loop computes the reference scanner: quotes toggle, dots outside quotes split, a trailing empty part is dropped |
| PathSyntax.SplitsAtSeparator | internal/utils.go:142-172 | for every text: what comes before the first dot outside quotes is the first part, without its quotes, and the rest is split in the same way |
| PathSyntax.SplitsNowhere | internal/utils.go:142-172 | a text without such a dot is one part, without its quotes, or none if nothing is left; the two determine the result for every text |
| PathSyntax.NothingIsDropped | internal/utils.go:164-169 | the parts joined with dots are the text without its quotes, up to one trailing dot |
| PathSyntax.SplitList | internal/config/config.go:157-165 | the trimmed, non-empty items of a comma-separated value, in order |
| Text.JoinSplit | internal/config/config.go:159 | the pieces of a split hold no separator and join to the original string |
| PathSyntax.PathRoundTrip | internal/utils.go:142-172 | a path printed with every part quoted is split into the same path |
| PathSyntax.MixedRoundTrip | internal/utils.go:142-172 | so is a path printed with any choice of parts quoted, as long as parts with dots are |
| PathSyntax.PlainPathIsRead | internal/config/config.go:65-72 | names joined with dots, as the built-in paths are, are read as these names |
| PathSyntax.ListRoundTrip | internal/config/config.go:157-165 | printing a list of paths and reading it back gives the list, for all non-empty paths without quote or comma in a part and with a last part that is not empty |
| PathSyntax.WrittenListIsRead | internal/config/config.go:157-165 | a list with blanks around its commas and any choice of parts quoted is read as the paths it names |
| Text.TrimDropsBlanks | internal/config/config.go:160 | trimming drops the blanks around a text and nothing of it |
| Text.AtoiReadsItoa | internal/utils.go:97 | a decimal numeral, with or without a sign, is read as its number |
| Text.AtoiReadsNumeralsOnly | internal/utils.go:97 | and nothing else is |
| PathSyntax.ScanStable | internal/utils.go:142-172 | for every string, splitting, printing the parts quoted and dot-terminated, and splitting again gives the same parts |
| Values.FindStructFieldByJSONTag | internal/utils.go:114-140 | the first exported field whose JSON name or Go name is the one asked for, or none if no exported field has it |
| Values.NamedMeaning | internal/utils.go:117-136 | an exported field answers to its Go name and to what its json tag says before the first comma, and to nothing else; other fields answer to nothing |
| PathClear.ZeroStays | internal/utils.go:16-112 | clearing anything inside a zero value leaves it zero |
| PathClear.Commute | internal/utils.go:16-112 | any two paths, overlapping, wildcard or named, one a prefix of the other or not, give the same value in either order |
| PathClear.PrefixSubsumes | internal/utils.go:16-112 | after a path, every longer path below it changes nothing |
| PathClear.Idempotent | internal/docker/inspect.go:108-111 | clearing a path again changes nothing |
| PathClear.OrderIndependent | internal/docker/inspect.go:166-170 | the result of a list of paths depends only on which paths it holds |
| PathClear.ClearAllIdempotent | internal/docker/inspect.go:108-111 | applying the whole list again changes nothing |
| PathMatch.MatchedIsZeroed | internal/utils.go:32-107 | every location the path matches ends up holding the zero of its type |
| PathMatch.UnmatchedIsKept | internal/utils.go:32-107 | every location not under a match reads as before, or is still absent |
| PathMatch.ShapeIsKept | internal/utils.go:32-107 | above the matches, types, lengths, map keys and nilness stay |
| PathMatch.SpelledIsErased | internal/utils.go:32-107 | a path that names a location by field names, keys and decimal indices erases it and nothing beside it |
| PathMatch.HitsMeaning | internal/utils.go:32-107 | what a segment selects: the wildcard all, otherwise the first field that answers to it, that key, or that index |
| PathMatch.ErasedThroughout | internal/utils.go:40 | what is left of an erased value: nil references, and zeroes wherever one looks |
| PathMatch.ClearTyped | internal/utils.go:16-112 | a cleared value still has its type |
| PathWalk.FailureChangesNothing | internal/utils.go:48-110 | where the code returns an error, nothing has changed |
| PathRefusals.FailsExactly | internal/utils.go:48-110 | an error is returned if and only if the path leads, without wildcards, to a place where its next segment names no field, no index, or there are no parts |
| PathWalk.PermittedNeverPanics | internal/utils.go:16-112 | on a permitted type and path, no value makes reflection refuse a write |
| PathWalk.PermittedExactly | internal/utils.go:16-112 | the condition on type and path is exact: it holds if and only if no value of the type makes the code panic; exported fields of an unexported embedded struct can be set, as reflection allows |
| PathRefusals.PanicsExactly | internal/utils.go:16-112 | the code panics if and only if the path matches a location that cannot be written: under an unexported field that is not promoted from, or reached neither as a map entry nor through a pointer or slice without a map in between |
| PathRefusals.WritableExactly | internal/utils.go:16-112 | that account of what can be written agrees with the marks and addresses of reflection followed step by step |
| PathWalk.MapOfStructsPanics | internal/utils.go:72-82 | one concrete path through a map holding structs by value that panics |
| PathWalk.ClearRecursive | internal/utils.go:16-112 | leaves what the declarative clearing says, returns an error exactly in the failing cases and then changes nothing, and panics exactly when a write is refused; a failure below a wildcard stops no sibling |
| PathWalk.AllFields | internal/utils.go:35-46 | the wildcard loop over struct fields |
| PathWalk.AllEntries | internal/utils.go:60-70 | the wildcard loop over a map, for any iteration order |
| PathWalk.Indexed | internal/utils.go:84-107 | slices and arrays: all elements, or the one at a valid decimal index |
| PathWalk.ClearByPath | internal/utils.go:10-14 | parser and clearer together, on a pointer; no panic on permitted paths |
| StoppedTasks.GetTasksInfo | internal/docker/inspect.go:262-308 | new cache, live tasks in source order, then exactly one newest stopped task for every service and slot, or service and node, that has a candidate, for any map iteration order |
| StoppedTasks.NewestStopped | internal/docker/inspect.go:288-305 | per slot key, a candidate of maximal creation time |
| StoppedTasks.SlotKeyMeaning | internal/docker/inspect.go:294-301 | replicated tasks compete exactly if service and slot agree, global ones exactly if service and node agree |
| StoppedTasks.SlotsAreShown | internal/docker/inspect.go:284-308 | for every candidate a task of the same slot that is not older is shown, and no two of one slot; in the fields of the tasks |
| StoppedTasks.LiveMeaning | internal/docker/inspect.go:271-274 | the live tasks are those desired running or accepted, in the order listed |
| StoppedTasks.CacheAfterPoll | internal/docker/inspect.go:262-282 | which tasks are cached after a poll, since when and as which poll listed them, in the fields of the tasks and the 30 s |
| StoppedTasks.EvictExpired | internal/docker/inspect.go:277-282 | exactly the entries first seen less than 30 s ago stay |
| StoppedTasks.NoTaskTwice | internal/docker/inspect.go:262-308 | no identifier is shown twice if the source lists none twice |
| StoppedTasks.ShownSetIsDetermined | internal/docker/inspect.go:288-308 | the tasks shown do not depend on map iteration order when creation times within a slot differ |
| StoppedTasks.FirstSeenIsKept | internal/docker/inspect.go:267-268 | over every run, a cached task keeps its first-seen time |
| StoppedTasks.ShownWithinGrace | internal/docker/inspect.go:277-308 | no successful poll shows a task from the cache 30 s or more after it was first seen |
| StoppedTasks.CachedOnce | internal/docker/inspect.go:262-282 | a task not stamped in the future when first cached is later cached since then, or evicted and past caching |
| StoppedTasks.NeverRecached | internal/docker/inspect.go:262-282 | it is never cached again after eviction, and not shown from the cache 60 s or more after its modification time |
| StoppedTasks.RecachedExactlyIfFuture | internal/docker/inspect.go:269-271 | once evicted, a task can be cached again at once if and only if it was stamped in the future when first polled |
| Memory.ClearInPlace | internal/utils.go:24-112 | clearing through shared references shows, to the holder, as clearing the whole value |
| Memory.SharedClear | internal/docker/inspect.go:108-111 | another holder of the same objects sees its own value cleared behind the references that both hold, and nothing else |
| Memory.BeyondCommutes | internal/docker/inspect.go:108-111 | what others see of a clearing commutes with every path they clear themselves |
| Memory.BeyondCleared | internal/docker/inspect.go:108-111 | they see no change if their value was cleared of the path already |
| Snapshots.SweepArray | internal/docker/inspect.go:415-435 | the loop over a slice of tasks computes the function that sweeps every element in place |
| Snapshots.SweepTasksShows | internal/docker/inspect.go:415-435 | after it every element shows its redaction, and everything that shares memory with the slice has changed only as the same redaction would change it |
| SnapshotClear.ClearSnapshot | internal/docker/inspect.go:166-170 | one sensitive path applied to a snapshot in shared memory, for every path |
| SnapshotClear.ClearShotShows | internal/docker/inspect.go:166-170 | for a path that is harmless after those cleared before, nothing is left of it in the snapshot, and everything that shares memory has changed only as redaction would change it |
| SnapshotClear.ClearPathsShows | internal/docker/inspect.go:166-170 | so it is for a whole list, each path harmless after those before it |
| SnapshotClear.RootClearAll | internal/docker/inspect.go:156-170 | for every list of paths, clearing it from a snapshot is clearing it from every field and from every task at its place |
| SnapshotClear.SettledStays | internal/docker/inspect.go:108-111 | a snapshot with nothing left to clear is not changed by what redaction does to shared memory |
| Shallow.QuietExactly | internal/utils.go:16-112 | a condition on type and paths holds if and only if a path changes no value of the type that other paths have cleared |
| Shallow.ShallowExactly | internal/utils.go:16-112 | another holds if and only if clearing the path from a holder that some paths have cleared changes no value which shares its objects and which other paths have cleared |
| Bystanders.HarmlessExactly | internal/docker/inspect.go:108-111 | clearing a path from any snapshot leaves every snapshot cleared of it and sharing its memory unchanged if and only if the path is harmless |
| Inspector.FrameIsRedaction | internal/docker/inspect.go:156-170 | whatever redaction has made of the caches before, once the sensitive paths are done with they show the redaction of what was fetched |
| Inspector.RedactionIsSettled | internal/docker/inspect.go:108-111 | a snapshot that shows a redaction has nothing left for any redaction to change |
| Inspector.RedactInPlace | internal/docker/inspect.go:156-170 | the loop over the sensitive paths computes the snapshot redacted in place |
| Inspector.AssembledShows | internal/docker/inspect.go:156-170 | that snapshot shows the redaction of the fetched data, and the redaction in place keeps the poller's invariant |
| Inspector.ComparisonIsFaithful | internal/docker/inspect.go:172 | when publish compares, the last snapshot, in memory just cleared again, still shows what was sent, so the comparison tells whether the new frame differs from it |
| Inspector.PollTasks | internal/docker/inspect.go:141-149 | a task poll, with the stopped-task cache and the sanitizing loop, computes the step function for one order of the stopped tasks |
| Inspector.TasksKeepInv | internal/docker/inspect.go:252-314 | a task poll keeps the invariant, whatever is shown of the cache |
| Inspector.GroupsKeepInv | internal/docker/inspect.go:129-139 | a complete structural round keeps the invariant |
| Inspector.PublishKeepsInv | internal/docker/inspect.go:151-181 | publish keeps the invariant, whether it sends or not |
| Polling.Poller.constructor | internal/docker/inspect.go:115-127 | nothing loaded, nothing sent |
| Polling.Poller.RefreshStructural | internal/docker/inspect.go:129-139 | all three groups or none |
| Polling.Poller.RefreshTasks | internal/docker/inspect.go:141-149 | the new tasks, or nothing on an error |
| Polling.Poller.Publish | internal/docker/inspect.go:151-181 | nothing before both groups have loaded; otherwise redaction in place, comparison with the last snapshot in shared memory, and the new snapshot and frame only if they differ and the encoder succeeds |
| Polling.Poller.OnTick | internal/docker/inspect.go:194-205 | a tick refreshes its group and publishes only if that succeeded |
| Polling.Poller.InspectSwarmServices | internal/docker/inspect.go:112-206 | for any series of ticks, the goroutine performs a run of the poller |
| Polling.TickKeepsInv | internal/docker/inspect.go:194-205 | every tick keeps the invariant, with nothing assumed but that what is fetched is typed |
| Polling.TickSends | internal/docker/inspect.go:151-181 | the comparison in memory sends a frame exactly when the redaction of the fetched data differs from the last frame, and that redaction is what is sent |
| Polling.PollingKeepsInv | internal/docker/inspect.go:112-206 | the invariant holds throughout every run |
| Polling.LastIsIntact | internal/docker/inspect.go:108-111 | at every comparison of every run the last snapshot shows what was handed to the hub last |
| Polling.PublishedWhenChanged | internal/docker/inspect.go:151-181 | in every run a tick publishes exactly when its refresh succeeded, both groups have loaded and what there is to show changed; afterwards the last frame shows the newest data |
| Polling.ConsecutiveDiffer | internal/docker/inspect.go:172-180 | no two frames in a row are equal |
| Polling.SentGrows | internal/docker/inspect.go:178-179 | frames are sent one per tick at most and never taken back |
| Provenance.GroupsOfOneRound | internal/docker/inspect.go:129-139 | nodes, services and networks always come from the last complete structural round |
| Provenance.TasksOfOnePoll | internal/docker/inspect.go:141-149 | the tasks always come from the last successful poll: its live tasks as it fetched them, then the newest stopped task of every slot, each as it or a named earlier poll fetched it |
| Provenance.CachedIsFetched | internal/docker/inspect.go:262-275 | every cached task was fetched by some poll of the run |
| Provenance.FrameHasOrigin | internal/docker/inspect.go:151-206 | every frame was sent after both groups had loaded, as the redaction of one round and of the tasks one poll showed, the last complete ones at that time |
| Frames.FlaggedFieldsAreGone | internal/docker/inspect.go:415-435 | in every frame of every run, every task is left as it is by clearing the field of each flag that is set, flag by flag |
| Frames.ClearedShowsZero | internal/docker/inspect.go:415-435 | what such a path matches is zero |
| Frames.SensitivePathsAreGone | internal/docker/inspect.go:166-170 | in every frame of every run, clearing any sensitive path would change nothing |
| Frames.NothingElseIsHidden | internal/docker/inspect.go:151-181 | every location apart from the sensitive paths and the fields of set flags reads in the frame as the last complete round and the polls fetched it |
| Frames.LoadedExactly | internal/docker/inspect.go:129-149 | the groups count as loaded from the first complete round on, the tasks from the first successful poll on |
| Frames.NewestIsSent | internal/docker/inspect.go:151-181 | from then on, while frames can be encoded, the last frame sent shows the newest data |
| HarmfulRuns.IntactExactlyIfHarmless | internal/docker/inspect.go:108-111 | for all types, flags and lists of sensitive paths: the last snapshot shows what was sent at every comparison of every run if and only if each path is harmless after those before it |
| HarmfulRuns.PublishedExactlyIfHarmless | internal/docker/inspect.go:151-181 | and every run publishes exactly when there is something new to show if and only if each path is |
| HarmfulRuns.HarmfulRun | internal/docker/inspect.go:172-180 | with any other list: three ticks, no identifier listed twice in a poll, after which a change has not been published |
| HarmfulRuns.UnnumberedNeverMisses | internal/config/config.go:65-72 | no list of paths that names no task by number, such as the built-in one, misses a change or disturbs the last snapshot |
| Traps.ErasedDiffers | internal/utils.go:16-112 | whatever else the list clears, a path that is not harmless leaves a visible difference behind a reference of the task at its place |
| Slices.ClearPathsSlice | internal/docker/inspect.go:166-170 | what clearing any list of paths in place leaves of a snapshot whose tasks share no objects, by-value parts and objects, and that no other task's objects change |
| NumberedPaths.NumberHidesChange | internal/docker/inspect.go:172-180 | a run that misses a change, for a task with a variable behind a pointer and the path `Tasks.0.Spec.Env` |
| NumberedPaths.EveryTaskCovers | internal/docker/inspect.go:166-170 | none does if `Tasks.*.Spec.Env` is listed with it |
| NumberedPaths.OrderMatters | internal/docker/inspect.go:166-170 | none does if `Tasks.0.Spec` is listed before it, but some do if it is listed after |
| Sanitize.SanitizeServices | internal/docker/inspect.go:327-412 | the in-place loops mask exactly the entries the flags and lists name, service by service |
| Sanitize.MaskEach | internal/docker/inspect.go:361-374 | environment entries are masked by the name before '=', or as a whole without one |
| Sanitize.MaskListed | internal/docker/inspect.go:378-392 | labels named in the list are masked, none is added |
| Sanitize.HiddenCannotBeTold | internal/docker/inspect.go:327-412 | services with the same lists that differ only in values these lists name become identical |
| Sanitize.ListsHonouredExactly | internal/docker/inspect.go:343-352 | that holds for a configuration if and only if it keeps service labels, or hides all variables |
| Sanitize.UnnamedIsKept | internal/docker/inspect.go:327-412 | what no flag and no list names is unchanged |
| Sanitize.FlagsRemove | internal/docker/inspect.go:331-348 | every flag removes its own member |
| Sanitize.ListedVariableIsMasked | internal/docker/inspect.go:351-374 | a variable the service lists shows its name and `(sanitized)` |
| Sanitize.ListedLabelIsMasked | internal/docker/inspect.go:377-412 | so do listed labels, of the service and of the container, each by its own list |
| Sanitize.UnlistedIsKept | internal/docker/inspect.go:351-412 | a variable or label that no list names keeps its value |
| HubProtocol.StepKeepsInv | internal/docker/handlers.go:231-308 | every action of every goroutine keeps the hub's invariant, write pumps receiving between any two selects of enqueue |
| HubProtocol.EnqueueKeepsClient | internal/docker/handlers.go:294-308 | the three selects leave the client with the new frame waiting or taken, and its frames in order |
| HubRuns.DeliveryInOrder | internal/docker/handlers.go:243-308 | in every interleaving a client receives a strictly increasing series of published frames, none older than the one last fanned out when it registered |
| HubRuns.LatestIsPending | internal/docker/handlers.go:200-308 | whenever the lock is free, the last frame fanned out is waiting for a registered client or is the last its write pump took |
| HubRuns.NeverFaults | internal/docker/handlers.go:231-308 | no send on a closed channel, no second close, the seeding send finds room, the last default of enqueue is never reached, and the connection cap holds |
| HubRuns.NothingLost | internal/docker/handlers.go:84-86 | published frames are those fanned out followed by those in transit, in order |
| HubRuns.ReadyStays | internal/docker/handlers.go:74-81 | once ready, always ready |
| HubRuns.ReadyExactly | internal/docker/handlers.go:74-81 | ready exactly if a frame has been fanned out, and then the last one is kept |
| HubRuns.RefusedExactlyWhenFull | internal/docker/handlers.go:243-262 | over runs, registering is refused exactly if the cap is positive and that many clients are registered; otherwise there is one more |
| HubRuns.TurnedAwayExactlyWhenFull | internal/docker/handlers.go:133-140 | so is a connection before its upgrade |
| HubRuns.UncappedRefusesNobody | internal/docker/handlers.go:231-249 | a hub without a positive cap refuses nobody |
| HubRuns.PlacesCanBeTaken | internal/docker/handlers.go:231-249 | for every number of clients up to the cap, and for any number without one, a run in which as many are registered |
| HubRuns.LeavingMakesRoom | internal/docker/handlers.go:264-274 | a registered client that leaves is closed and makes room for one |
| HubRuns.StoppedPumpTakesNothing | internal/docker/handlers.go:201-228 | after a write that fails, or once stopped, a write pump takes no more frames |
| HubRuns.BroadcasterNeverBlocks | internal/docker/handlers.go:277-308 | while it holds the lock the broadcaster always has a step to take |
| HubRuns.LockIsGivenUp | internal/docker/handlers.go:106-110 | in every run the broadcaster gives the lock up within three of its steps per client and one more, whatever the others do: a slow client delays no one |
| HubObject.FanOutHub.constructor | internal/docker/handlers.go:64-72 | a new hub satisfies the invariant |
| HubObject.FanOutHub.IsReady | internal/docker/handlers.go:77-81 | whether a frame has been fanned out |
| HubObject.FanOutHub.IsAtCapacity | internal/docker/handlers.go:231-238 | whether there is a positive cap and at least as many clients are registered |
| HubObject.FanOutHub.Register | internal/docker/handlers.go:243-262 | one protocol step: registers and seeds, or registers nothing exactly if there is a positive cap and as many clients are registered |
| HubObject.FanOutHub.Unregister | internal/docker/handlers.go:264-274 | one protocol step: removes and closes once, nothing for a client not registered |
| HubObject.FanOutHub.Enqueue | internal/docker/handlers.go:294-308 | with the other goroutines running before every select, the client is served and the group unchanged |
| HubObject.FanOutHub.FanOut | internal/docker/handlers.go:277-288 | whatever runs meanwhile, every registered client ends with the frame waiting or taken |
| Pipeline.FramesMatch | internal/docker/inspect.go:178-179 | as many frames are published to the hub as the poller has sent |
| Pipeline.ClientsShowTheLastSnapshot | internal/docker/inspect.go:172-180 | in every run of poller and hub together, when the hub is at rest every registered client has, or has waiting, the snapshot the poller compares against, and that snapshot still shows what was sent |
| Pipeline.ClientsSeeRedactionsOnly | internal/docker/inspect.go:151-206 | whatever a client was handed is the redaction of one complete structural round and of the tasks shown by one poll, both ticks of the run, each task fetched by a poll of the run |
| Keepalive.ReadLoop | internal/docker/handlers.go:178-195 | the loop gives the connection up at the deadline that the pongs so far have set |
| Keepalive.OneEventMore | internal/docker/handlers.go:178-195 | what one more event changes: a pong puts the deadline a wait later, another frame nothing, the end of the connection ends it at once, and nothing counts at or after the deadline |
| Keepalive.BrokenIsGoneAtOnce | internal/docker/handlers.go:190-195 | a connection that breaks before its deadline is given up at that moment |
| Keepalive.NothingHeard | internal/docker/handlers.go:178-179 | without pongs it is given up at the first deadline |
| Keepalive.LivePeerIsKept | internal/docker/handlers.go:174-228 | if the ticker starts at most L after the deadline is set, pings leave within D of their tick and pongs return within R, with L + period + D + R < wait, the deadline never passes |
| Keepalive.TimingsAreExact | internal/docker/handlers.go:88-104 | that inequality holds if and only if no such peer is ever given up |
| Keepalive.DefaultTimings | internal/docker/handlers.go:98-101 | the instance for the 30 s and 60 s of the server |
| Keepalive.SilentPeerIsReaped | internal/docker/handlers.go:174-196 | a peer is unregistered at most the wait after its last pong, whatever else it sends |
| Keepalive.MessagesDoNotCount | internal/docker/handlers.go:178-183 | frames other than pongs make no difference to when a connection is given up |
| RateLimit.Authenticator.Allow | internal/oauth/oauth.go:79-90 | answers and new table of a lookup followed by Allow |
| RateLimit.Authenticator.CleanupLimiters | internal/oauth/oauth.go:93-104 | a sweep removes exactly the entries idle for more than ten minutes |
| RateLimit.EvictionIsInvisible | internal/oauth/oauth.go:77-104 | for every run of requests and sweeps, the answers are those of a table that never evicts |
| RateLimit.WindowBound | internal/oauth/oauth.go:77-90 | in any run, a window of length T admits at most 5 + T/12 s requests of one address |
| RateLimit.RefusedExactlyWhenSpent | internal/oauth/oauth.go:77-104 | in every run with sweeps, a request is refused if and only if, since some earlier request of its address, it would be one more than 5 and one per 12 s |
| RateLimit.SweepKeepsExactlyTheRecent | internal/oauth/oauth.go:92-104 | after a sweep the table holds exactly the addresses that asked in the last 600 s |
| RateLimit.IdleBoundIsExact | internal/oauth/oauth.go:92-104 | an idle time is unobservable for all runs if and only if it is at least the 60 s a bucket takes to refill |
| KeyStore.BuildKeys | internal/oauth/jwks.go:105-127 | the decoding loop computes the key set of a document |
| KeyStore.KeySetMeaning | internal/oauth/jwks.go:105-127 | a key id is known exactly if some usable entry has it, and the last such entry wins |
| KeyStore.SigningKeys.Refresh | internal/oauth/jwks.go:83-137 | stamps first; replaces the keys only by a non-empty set |
| KeyStore.SigningKeys.RefreshIfStale | internal/oauth/jwks.go:69-80 | attempts exactly if the last attempt is a minute old or there was none |
| KeyStore.SigningKeys.Key | internal/oauth/jwks.go:49-65 | a known key id causes no fetch; an unknown one causes one exactly if the last attempt is 60 s old or there was none, and the answer is then the last usable entry of the document, if it has one |
| KeyStore.ActionKeepsInv | internal/oauth/jwks.go:49-148 | every lock section of every goroutine keeps the store's invariant |
| KeyStore.KeysOfOneDocument | internal/oauth/jwks.go:83-137 | in every interleaving the keys are those of one complete fetched document, or none yet |
| KeyStore.NeverEmptyAgain | internal/oauth/jwks.go:129-136 | once non-empty, never empty again |
| KeyStore.AnswersAreGenuine | internal/oauth/jwks.go:49-65 | a key handed out is one that some fetched document gives its key id |
| KeyStore.UnknownWasMissed | internal/oauth/jwks.go:49-80 | over runs, a request answered with nothing found its key id absent at its last look-up, and if that was the first, a refresh less than a minute old |
| KeyStore.RotationIsFollowed | internal/oauth/jwks.go:46-65 | from every reachable state in which a refresh is due, a request for a new key id can be answered with the key the document gives it |
| KeyStore.ThrottleIsExact | internal/oauth/jwks.go:67-87 | an on-demand attempt comes a minute after all earlier ones if and only if its check would still pass when it stamps: nothing was stamped since, or the last stamp is a minute old |
| KeyStore.ThrottledUnlessRaced | internal/oauth/jwks.go:67-87 | in particular whenever nothing was stamped in between |
| KeyStore.RaceDefeatsThrottle | internal/oauth/jwks.go:69-87 | from every reachable state with stale keys, two requests for an unknown key id can fetch at the same moment |
| KeyStore.RaceInService | internal/oauth/oauth.go:283-287 | so they can in service: after the refresh at start-up and a minute |
| LoginFlow.HandleLogin | internal/oauth/oauth.go:157-176 | both cookies, or an error and none |
| LoginFlow.HandleCallback | internal/oauth/oauth.go:178-241 | clears the flow cookies on every path, sets the session exactly if state, token and nonce fit, and answers every failure with its own status |
| LoginFlow.ClearFlowCookies | internal/oauth/oauth.go:324-337 | expires state and nonce, in this order, after what was set before |
| LoginFlow.CookiesTellTheFlow | internal/oauth/oauth.go:157-241 | in every run the jar holds exactly the pending login's state and nonce and the open session, as the history of events defines them |
| LoginFlow.AcceptedExactlyForPendingLogin | internal/oauth/oauth.go:178-241 | a callback is accepted if and only if a login is pending and state and nonce are its own |
| LoginFlow.AcceptedExactlyForOpenLogin | internal/oauth/oauth.go:178-241 | in terms of events alone: if and only if a login has been started, nothing has superseded it, and query and token bring its state and its non-empty nonce |
| LoginFlow.SessionExactly | internal/oauth/oauth.go:178-241 | the session cookie is that of the last accepted callback, unless a logout came after it |
| LoginFlow.SessionNeedsLatestLogin | internal/oauth/oauth.go:206-241 | a session is established only with a token carrying the nonce of the browser's most recent login (state: section 10.12 of RFC 6749; nonce: section 3.1.3.7 of OpenID Connect Core 1.0) |
| LoginFlow.SecondCallbackFails | internal/oauth/oauth.go:178-241 | a processed callback consumes the login: no second one succeeds without a new login |

## Left out

Assumptions of the model:

- Each fetch returns newly allocated objects of their types, and below a reference these form a tree; sharing arises only as the program's own copying of structs and slices creates it.
- Whether the JSON encoder succeeds is a parameter of each publish; a frame stands for its snapshot's content.
- Values behind interfaces count as leaves the clearer cannot enter; maps are keyed by strings.
- The assignments of `sanitizeTasks` are modelled as clearing the path of field names they spell; a task or service without a container specification would make the code panic and is not modelled.
- Numbers are unbounded: durations do not saturate, and a number in a path does not overflow. Strings are sequences of characters, which for the ASCII separators makes no difference.
- `rate.Limiter` is an ideal token bucket over real numbers, and looking a limiter up and asking it are one step.
- The slot of a stopped task is told from a text key; that it is told rightly assumes, as Docker has it, that identifiers of services hold no colon and that the tasks of a service are all numbered or all not (`StoppedTasks.Consistent`).
- Cookies leave the jar only by being expired or replaced, not by age.
- The token exchange and the validation of the ID token have an arbitrary outcome each time.
- Expiry of a read deadline takes effect at once.

Weaker than one might ask:

- PathWalk.ClearRecursive: works on values rather than through reflection, so update in place and aliasing are left to `Memory`, and what a panic leaves half done is not described.
- Sanitize.SanitizeServices: rebuilds values; that the slices and maps it writes are the fetched ones is not captured, and they are never shared before this point.
- Provenance.GroupsOfOneRound: the groups of a round are what `getNodesInfo`, `getServicesInfo` and `getNetworksInfo` return, after their own redaction; `Sanitize` describes that of services by itself and is not composed with the poller.
- Polling.PublishedWhenChanged: for configurations all of whose sensitive paths are harmless; `HarmfulRuns.PublishedExactlyIfHarmless` says that it fails for all others.
- Polling.Poller.Publish: speaks of sensitive paths on which the clearer does not panic (`PathWalk.PermittedExactly`); a panic would end the server, and of a run only the part before it takes place.
- HubObject.FanOutHub.FanOut: other goroutines' steps are interleaved between channel operations; those that need the lock run in the protocol only.

Not modelled:

- The Docker client adapters, HTTP serving, the WebSocket upgrade and its authentication, logging and the healthcheck command: input and output.
- JWT parsing, RSA, X.509, base64, JSON and OIDC discovery: library code; their outcomes are parameters.
- The rest of configuration loading and the choice of client address from headers: straight-line code.
- Redaction of nodes, filtering of networks, the health endpoint and logout by itself: each is one branch.
- The browser front end: rendering and selection state.
