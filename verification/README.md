# Verified model of the Kura core

A Dafny model of six parts of the Kura repository whose correctness depends on more than one
function at a time, with proofs of what each part is for. `dafny verify dfyconfig.toml` checks
everything.

| modules | what they model |
|---|---|
| `Wrappers`, `Text` | absent values and failures; trimming (JavaScript and Rust), splitting and joining |
| `Sse` | the server-sent-event reader of the TypeScript SDK and the chat stream on top of it |
| `Connectors`, `Supervisor`, `SupervisorFields` | connector records and the supervisor: a lifecycle with backoff, circuit breaker, disable and restore; every field told by the history |
| `MutationLocks`, `Deadlock` | threads going through the supervisor's two levels of locks, and when they get stuck |
| `Cursor`, `Projections`, `Ranking`, `Management` | the connector page builder: projections, stable three-key sort, cursors |
| `Runtime`, `RuntimeHistory`, `RuntimeCalls`, `AgentRuntime` | the event-logged agent runtime: what calls do to values, what whole histories keep, what each call answers and changes, and the objects that are updated in place |
| `TenantChoice`, `Refresh`, `OperatorShell` | the choice of a tenant and the generation-guarded refresh protocol of the operator shell, as steps of any interleaving and as the component that takes them |
| `Bits`, `Permissions`, `Destinations` | Discord permission masks, overwrites and destination checks |
| `Redaction`, `Dedupe` | Discord route redaction; the Matrix duplicate filter |

How the parts are put together:

- Code that updates things in place is a class or a method with loops, proved against a function
  on values (`Supervisor.Apply`, `Runtime.Apply`, `Refresh.Step`, `Management.PageOf`, ...). The
  classes carry the calls made so far as ghost state, so the theorems about all histories are
  theorems about every object a program can reach.
- Clocks, random ids, JSON parsing and network replies are parameters. Times are integers,
  0 being the Unix epoch.
- Replies, threads and user actions may come in any order: the interleaving theorems range over
  every sequence of steps, each step being one stretch between two awaits or two lock operations.

Where the code and what one would expect of it differ, the model follows the code:

- A terminal chat event whose JSON value is falsy (`null`, `0`, `false`, `""`) counts as missing
  (`Sse.StreamChatQuery`).
- A caller's payload may carry a `status` key of its own, which then wins in the log; log and
  state agree exactly when it does not contradict the call (`Runtime.RunStatusFaithIffHonest`,
  `Runtime.StepStatusFaithIffHonest`; a failing history is `Runtime.DishonestPayloadMisleadsReplay`).
- `re_enable` neither asks for a disabled connector nor clears the backoff, so a connector can be
  registered with a restart still scheduled (the run is `Supervisor.RegisterFailReEnable`), exactly
  when `Supervisor.LeftoverIffReEnabledWhileBackingOff` says.
- A `restore` is unchecked: it establishes the supervisor's invariant exactly when its items
  satisfy it (`Supervisor.RestoreKeepsInvariant`).
- A soft refresh keeps the old shell on display until its data arrives, even when it moves to
  another tenant, and keeps the old detail even after that, since loading a shell does not clear
  the detail (a run in `Refresh.SoftRefreshShowsOldTenant`). When another tenant's shell or detail
  is on display is told exactly by `Refresh.ForeignDisplayIff`.
- The order of channel overwrites can matter: within one pass exactly when one overwrite only
  denies a bit that another allows (`Permissions.OrderIrrelevantIffNoConflict`), for a user in a
  channel exactly when `Permissions.OrderSensitiveIffMatters` says.
- `with_connector_mutation` hangs for good when closures nest in a circle, in the simplest case
  when a closure asks for its own connector (`Deadlock.NestingTheSameConnectorHangs`).
- Dedupe keys are joined with NUL, so different identities can share a key, for an event with
  trimmed pieces exactly when one of its fields holds a NUL (`Dedupe.CollidesIffNul`).

## Model

| member | source | states |
|---|---|---|
| `Sse.ParseSseEvent` | sdk/ts/src/index.ts:5446-5476 | a block gives an event exactly when it has a non-empty last `event:` value and at least one `data:` line; the data lines are joined in order |
| `Sse.BlockEventByLines` | sdk/ts/src/index.ts:5446-5476 | the same without the cleaning of lines: the trimmed rest of the last line starting with `event:` and of all lines starting with `data:`, if there are both |
| `Sse.ReadSse` | sdk/ts/src/index.ts:5416-5444 | for every text and every way of cutting it into chunks, the emitted events are those of splitting the whole text at blank lines at once, the unterminated rest included |
| `Sse.FeedChunk` | sdk/ts/src/index.ts:5426-5428 | one more chunk changes neither the settled blocks nor anything but the pending one |
| `Sse.EmitBlocks` | sdk/ts/src/index.ts:5429-5434 | the emitted events are the parsing blocks' events, in order |
| `Sse.BlankBlock` | sdk/ts/src/index.ts:5437-5443 | skipping a blank remainder loses no event |
| `Sse.PrintReadRoundTrip` | sdk/ts/src/index.ts:5416-5476 | printing a list of events and reading it back gives the same list exactly when every event is printable: named, trimmed, free of newlines in its values |
| `Sse.ReadPrintReadStable` | sdk/ts/src/index.ts:5416-5476 | any text, read, printed and read again, gives the same events: reading normalises |
| `Sse.EmittedArePrintable` | sdk/ts/src/index.ts:5446-5476 | whatever the reader emits is printable |
| `Sse.HandleEvents` | sdk/ts/src/index.ts:3877-3901 | the events are handled in order up to the first one whose JSON does not parse; the last terminal event wins |
| `Sse.StreamChatQuery` | sdk/ts/src/index.ts:3863-3911 | under any chunking the call returns the last terminal event, and fails exactly on unparsable JSON or when there is no (truthy) terminal event |
| `Supervisor.CleanStrings` | crates/channels/connectors/src/supervisor.rs:381-396 | the loop over a seen set computes the trimmed, non-empty first occurrences |
| `Supervisor.CleanedExact` | crates/channels/connectors/src/supervisor.rs:381-396 | exactly the non-blank values, trimmed, each once, in order of first occurrence; a second cleaning changes nothing |
| `Supervisor.FailingSchedule` | crates/channels/connectors/src/supervisor.rs:276-312 | the n-th failure backs off 5 * 2^(n-1) <= 40 seconds for n below five, so the 300 second cap never binds, and fails the connector from the fifth on |
| `Supervisor.StepKeepsInvariant` | crates/channels/connectors/src/supervisor.rs:122-378 | every call keeps: order lists every id once, restart time set iff backoff > 0, the backoff schedule, and what each status implies about failures and backoff |
| `Supervisor.RunKeepsInvariant` | crates/channels/connectors/src/supervisor.rs:122-378 | the same in every run whose restores bring clean items |
| `Supervisor.RestoreKeepsInvariant` | crates/channels/connectors/src/supervisor.rs:366-378 | a restore establishes the invariant if and only if its items are clean |
| `Supervisor.FailureCountIsTally` | crates/channels/connectors/src/supervisor.rs:248-362 | the failure count is the number of accepted failures since the last accepted heartbeat, creation or restore, across restarts, disables, re-enables and re-registrations |
| `Supervisor.BreakerFollowsTally` | crates/channels/connectors/src/supervisor.rs:276-312 | read off the history alone: an accepted failure backs off or fails the connector according to how many came since the last reset |
| `Supervisor.DisabledUntilReopened` | crates/channels/connectors/src/supervisor.rs:209-221 | from a disable until a re-enable of that connector or a restore: stays disabled, heartbeats, failures and restarts are refused without effect, inbound readiness fails |
| `Supervisor.ListShowsAll` | crates/channels/connectors/src/supervisor.rs:165-175 | after any clean run the listing shows every registered connector and none twice |
| `Supervisor.LeftoverIffReEnabledWhileBackingOff` | crates/channels/connectors/src/supervisor.rs:248-362 | for every history: a connector is registered with backoff left iff, of the calls that write its backoff, the last was a failure below the threshold with a re-enable after it, or a restore that brought such an item, registered or re-enabled since |
| `Supervisor.ReEnableKeepsBackoff` | crates/channels/connectors/src/supervisor.rs:351-363 | after any history, a first failure and a re-enable leave a registered connector with five seconds of backoff |
| `Supervisor.RegisterFailReEnable` | crates/channels/connectors/src/supervisor.rs:351-363 | the shortest such run: register, fail, re-enable |
| `SupervisorFields.ConnectorIsAsTold` | crates/channels/connectors/src/supervisor.rs:122-378 | after every history a connector is there iff it was created since, or brought by, the last restore, and each of its fields is what the last accepted call that writes it made it: the reported health for a heartbeat, registered for a creation, restart or re-enable, disabled for a disable, the tally's verdict for a failure; and so for times, reasons, counts and what registrations replace |
| `SupervisorFields.CallsAnswer` | crates/channels/connectors/src/supervisor.rs:122-378 | which call is refused and why: bad arguments first, then an unknown connector, then a disabled one; a refused call changes nothing, an accepted one answers with the connector as it now is; the order grows at its end |
| `SupervisorFields.InboundReadyIff` | crates/channels/connectors/src/supervisor.rs:209-221 | inbound traffic is let through iff the connector is known, of the named tenant if one is named, and not disabled |
| `Supervisor.Supervisor.constructor` | crates/channels/connectors/src/supervisor.rs:101-109 | starts with the empty history |
| `Supervisor.Supervisor.Register` | crates/channels/connectors/src/supervisor.rs:122-161 | the registry and the reply are those of the history with this call added; a known id keeps status, failures and place in the order |
| `Supervisor.Supervisor.ReportHealth` | crates/channels/connectors/src/supervisor.rs:248-273 | as `Register`, for a heartbeat |
| `Supervisor.Supervisor.ReportFailure` | crates/channels/connectors/src/supervisor.rs:276-312 | as `Register`, for a failure report |
| `Supervisor.Supervisor.Restart` | crates/channels/connectors/src/supervisor.rs:315-332 | as `Register`, for a restart |
| `Supervisor.Supervisor.Disable` | crates/channels/connectors/src/supervisor.rs:335-348 | as `Register`, for a disable |
| `Supervisor.Supervisor.ReEnable` | crates/channels/connectors/src/supervisor.rs:351-363 | as `Register`, for a re-enable |
| `Supervisor.Supervisor.Restore` | crates/channels/connectors/src/supervisor.rs:366-378 | as `Register`, for a restore of a list of connectors |
| `MutationLocks.EveryScheduleKeepsInv` | crates/channels/connectors/src/supervisor.rs:225-244 | in every possible interleaving held locks are registered, owned by their holder and held once, owned locks are accounted for, and what the owner of the registry lock has read is still current |
| `MutationLocks.ClosuresExcludeEachOther` | crates/channels/connectors/src/supervisor.rs:225-235 | no two closures of one connector run at once, in two threads or nested in one, with restores at any point |
| `MutationLocks.LockObjectsPersist` | crates/channels/connectors/src/supervisor.rs:237-244 | a connector's lock object is never replaced, whatever follows |
| `MutationLocks.RegistryHolderNeverWaits` | crates/channels/connectors/src/supervisor.rs:225-244 | the holder of the registry lock can always read and then write, and the write gives the lock back |
| `MutationLocks.RegistryIsSerial` | crates/channels/connectors/src/supervisor.rs:225-378 | calls read and later write, other threads stepping in between: the registry of any interleaving, and every answer given, are those of the finished calls made one after another |
| `Deadlock.StuckIffAllBlocked` | crates/channels/connectors/src/supervisor.rs:225-244 | nothing can go on iff every busy thread waits for a mutation lock that someone owns |
| `Deadlock.StuckHasRing` | crates/channels/connectors/src/supervisor.rs:225-244 | a stuck state with a busy thread has a ring of threads, each waiting for a lock the next one owns |
| `Deadlock.WaitersNeverMove` | crates/channels/connectors/src/supervisor.rs:225-244 | threads that wait only for each other never move again, whatever the others do |
| `Deadlock.NestingTheSameConnectorHangs` | crates/channels/connectors/src/supervisor.rs:225-235 | a closure that asks for its own connector again waits for itself |
| `Deadlock.NoDeadlockWithoutNesting` | crates/channels/connectors/src/supervisor.rs:225-244 | while no thread waits for one mutation lock with another in hand, a busy state is not stuck |
| `Cursor.CursorRoundTrip` | crates/channels/connectors/src/management.rs:748-757 | a printed offset parses back exactly when it fits a signed 64-bit number |
| `Cursor.CursorMeans` | crates/channels/connectors/src/management.rs:748-757 | a cursor means the number it is, blanks and sign aside; a negative, oversized or malformed one means the start |
| `Projections.LatestDiagnostic` | crates/channels/connectors/src/management.rs:672-680 | the loop finds the diagnostic of the recursive definition |
| `Projections.LatestIsFirstMaximum` | crates/channels/connectors/src/management.rs:672-680 | it is the newest, and the first among equally new ones |
| `Projections.ProjectTells` | crates/channels/connectors/src/management.rs:538-613 | a projection is exactly what tells this of the connector and its newest diagnostic: ready and delivery eligible iff healthy or registered with no trouble reported, and the matching condition for each other state, the freshness and the next action |
| `Ranking.SortIsStable` | crates/channels/connectors/src/management.rs:656-668 | the result is ordered by rank, name and id, and elements with equal keys keep their order and number |
| `Ranking.StableSortingUnique` | crates/channels/connectors/src/management.rs:656-668 | there is only one stable ordering, so any stable sort gives this one |
| `Ranking.AtMostPrecedes` | crates/channels/connectors/src/management.rs:656-668 | names and ids are compared by the first character in which they differ, a start of a text coming before it |
| `Management.Collect` | crates/channels/connectors/src/management.rs:487-510 | the filtering loop yields exactly the projections the tenant, kind and state filters let through, in input order |
| `Management.BuildConnectorPage` | crates/channels/connectors/src/management.rs:479-531 | the page is the slice of the ordered listing that the cursor points at, with the cursor of what is left |
| `Management.PageTells` | crates/channels/connectors/src/management.rs:479-531 | a page has the query's tenant and its limit or twenty, and from the place the cursor means the next items up to the limit or the end; a next cursor iff something is left, meaning the place after the page |
| `Management.ListedIff` | crates/channels/connectors/src/management.rs:487-510 | the list holds exactly the projections of the connectors whose tenant, kind and state the query asks for, each told by `Projections.ProjectTells` from its newest diagnostic |
| `Management.ListedInOrder` | crates/channels/connectors/src/management.rs:656-693 | attention before disabled before ready, then by name, then by id |
| `Management.CutPage` | crates/channels/connectors/src/management.rs:513-530 | at most `limit` items from the offset; a next cursor exactly when something is left |
| `Management.WalkFrom` | crates/channels/connectors/src/management.rs:513-530 | from any offset, the pages hold the rest of the list, are full up to the last, and are as few as possible |
| `Management.SessionShowsListing` | crates/channels/connectors/src/management.rs:479-531 | following `next_cursor` from the empty cursor shows exactly the filtered sorted list, each item once, in max(1, ceil(n/limit)) pages |
| `Management.SessionExists` | crates/channels/connectors/src/management.rs:479-531 | such a walk exists for every query: it always ends |
| `Management.SessionUnique` | crates/channels/connectors/src/management.rs:479-531 | the first cursor determines the whole walk |
| `Management.ListingIgnoresInputOrder` | crates/channels/connectors/src/management.rs:479-531 | with distinct ids the listing does not depend on the order in which connectors are supplied |
| `Management.PagesIgnoreTime` | crates/channels/connectors/src/management.rs:479-531 | nor do the connectors, their order or the cursor of a page depend on the time; only freshness marks can |
| `Management.AttentionFirstEligibleLast` | crates/channels/connectors/src/management.rs:656-693 | action-required, unavailable and degraded connectors form a prefix and delivery-eligible ones a suffix |
| `Management.DisabledUntilReopenedIsNotEligible` | crates/channels/connectors/src/management.rs:538-613 | throughout a disabled period every projection of the connector, with any diagnostic at any time, is disabled and not delivery eligible |
| `Runtime.RunStatusFaithIffHonest` | archive/js-runtime-prototype/src/runtime.js:117-129 | a run's status update keeps log and state in agreement if and only if the payload does not contradict it |
| `Runtime.StepStatusFaithIffHonest` | archive/js-runtime-prototype/src/runtime.js:146-168 | a step's status update is accepted iff the table allows it, changes nothing otherwise, and keeps log and state in agreement iff the payload is honest |
| `Runtime.StepKeepsFaith` | archive/js-runtime-prototype/src/runtime.js:86-260 | every call with an honest payload keeps every run's log equivalent to its state, in the runtime and in all checkpoints |
| `Runtime.ReplayRebuildsState` | archive/js-runtime-prototype/src/runtime.js:86-260 | in every reachable state, restores included, replaying a run's log rebuilds its status and all steps in order, and `updatedAt` is the last event's time |
| `Runtime.DishonestPayloadMisleadsReplay` | archive/js-runtime-prototype/src/runtime.js:117-129 | a history in which a payload's own `status` key makes the log lie |
| `RuntimeHistory.StepKeepsOrder` | archive/js-runtime-prototype/src/runtime.js:256-294 | for any payload: the three maps keep equal key sets, a refused call changes nothing, and the two missing-store errors never occur |
| `RuntimeHistory.HistoryKeepsOrder` | archive/js-runtime-prototype/src/runtime.js:256-294 | the same in every reachable state, over any checkpoint store |
| `RuntimeCalls.MovesByTarget` | archive/js-runtime-prototype/src/runtime.js:13-56 | which moves a step can make, told by their target |
| `RuntimeCalls.CallAnswers` | archive/js-runtime-prototype/src/runtime.js:146-168 | after any history and for every call: refused for a missing checkpoint, run or step, else for a move the first step with the id cannot make, else accepted; a refused call changes nothing |
| `RuntimeCalls.AcceptedCallDid` | archive/js-runtime-prototype/src/runtime.js:117-237 | an accepted call on a run adds exactly its own event to the log, stamps the run, makes its one change to the run, its steps or the checkpoints, and touches no other run |
| `RuntimeCalls.CreatedRunIs` | archive/js-runtime-prototype/src/runtime.js:86-106 | a new run is running, without steps, with the one event that tells of it |
| `RuntimeHistory.StatusesFollowTable` | archive/js-runtime-prototype/src/runtime.js:13-56 | for honest step payloads and any run payloads: each step's recorded statuses are a path of the table from queued to its status; a completed step went through planning and came from a model or tool call |
| `RuntimeHistory.PathToCompleted` | archive/js-runtime-prototype/src/runtime.js:13-56 | every path of the table to completed starts queued, planning and arrives from calling_model or executing_tool |
| `RuntimeHistory.TerminalStepsRest` | archive/js-runtime-prototype/src/runtime.js:146-168 | a terminal step stays exactly as it is until its whole run is replaced |
| `RuntimeHistory.StoredNeverChanges` | archive/js-runtime-prototype/src/runtime.js:222-254 | a stored checkpoint keeps its value whatever calls follow (that no returned object reaches into it is `AgentRuntime.SavedRunSurvivesCallers`) |
| `RuntimeHistory.RestoreBringsBackSaved` | archive/js-runtime-prototype/src/runtime.js:222-254 | save, anything, restore: the run is exactly as it was when saved, without the event of the save, and no other run is touched |
| `AgentRuntime.InMemoryCheckpointStore.Save` | archive/js-runtime-prototype/src/runtime.js:63-66 | stores a deep copy: nothing the caller holds reaches into the store |
| `AgentRuntime.InMemoryCheckpointStore.Get` | archive/js-runtime-prototype/src/runtime.js:68-71 | hands out fresh objects with the stored values, or nothing for an unknown id |
| `AgentRuntime.CloneSteps` | archive/js-runtime-prototype/src/runtime.js:108-115 | new, separate objects with the same values |
| `AgentRuntime.AgentRuntime.constructor` | archive/js-runtime-prototype/src/runtime.js:75-84 | no runs and no history, over a store that may already hold checkpoints |
| `AgentRuntime.AgentRuntime.CreateRun` | archive/js-runtime-prototype/src/runtime.js:86-106 | the objects hold the value-level result; the returned copy is fresh and outside the runtime |
| `AgentRuntime.AgentRuntime.GetRun` | archive/js-runtime-prototype/src/runtime.js:108-115 | fresh copies of the run, its steps and its log, outside the runtime and the store, or the not-found error exactly for an unknown run |
| `AgentRuntime.AgentRuntime.UpdateRunStatus` | archive/js-runtime-prototype/src/runtime.js:117-129 | the run object is changed in place to the value-level result; the answer is a fresh copy |
| `AgentRuntime.AgentRuntime.CreateStep` | archive/js-runtime-prototype/src/runtime.js:131-144 | as `UpdateRunStatus`, with a new step at the end of the list; the answer is a fresh copy of that step |
| `AgentRuntime.AgentRuntime.FindStep` | archive/js-runtime-prototype/src/runtime.js:270-277 | the first step with the id, or the length of the list |
| `AgentRuntime.AgentRuntime.UpdateStepStatus` | archive/js-runtime-prototype/src/runtime.js:146-168 | as `UpdateRunStatus`, refused with the first error that applies and then without any change; the answer is a fresh copy of the first step with the id |
| `AgentRuntime.AgentRuntime.LogToolCall` | archive/js-runtime-prototype/src/runtime.js:170-206 | requesting, completing and failing a tool call only add to the log of an existing step's run |
| `AgentRuntime.AgentRuntime.EvaluatePolicy` | archive/js-runtime-prototype/src/runtime.js:208-220 | a policy decision only adds to the log of an existing run |
| `AgentRuntime.AgentRuntime.AppendEvent` | archive/js-runtime-prototype/src/runtime.js:256-260 | pushes to the run's log and stamps the run object |
| `AgentRuntime.AgentRuntime.SaveCheckpoint` | archive/js-runtime-prototype/src/runtime.js:222-237 | stores the snapshot taken before the saving event, and answers with a fresh copy of it that is outside the store and the runtime |
| `AgentRuntime.AgentRuntime.RestoreCheckpoint` | archive/js-runtime-prototype/src/runtime.js:239-254 | puts fresh copies of the stored objects in place and answers with other fresh copies, outside the store and the runtime |
| `AgentRuntime.AgentRuntime.CallerChangesStep` | archive/js-runtime-prototype/src/runtime.js:58-72 | a caller changing a step object it was given changes neither the runtime nor the store |
| `AgentRuntime.AgentRuntime.CallerChangesRun` | archive/js-runtime-prototype/src/runtime.js:58-72 | the same for a run object |
| `AgentRuntime.CallerChangesRecord` | archive/js-runtime-prototype/src/runtime.js:58-72 | the same for every object of an answer |
| `AgentRuntime.SavedRunSurvivesCallers` | archive/js-runtime-prototype/src/runtime.js:222-254 | save, overwrite all of the answer, restore, overwrite all of that answer, restore: the run comes back as it was when saved, in the runtime and in the answer |
| `AgentRuntime.LogRebuildsObjects` | archive/js-runtime-prototype/src/runtime.js:86-260 | whatever was called so far with honest payloads, replaying a run's log rebuilds what its run and step objects hold |
| `TenantChoice.ResolveChoosesAllowed` | web/src/app/App.tsx:2853-2891 | only allowed tenants are chosen; none exactly when there is none or the picked one is not allowed; a request for an allowed one is honoured |
| `TenantChoice.ResolveChooses` | web/src/app/App.tsx:2853-2891 | the choice is the first tenant meeting the first criterion any tenant meets: asked for (alone if picked), saved, token default, principal default, current, default, any |
| `Refresh.EveryRunKeepsInv` | web/src/app/App.tsx:222-305 | in every interleaving: in-flight work never has a newer generation than the counter, and display, active tenant and log fit together |
| `Refresh.CommitsBelongToNewestRefresh` | web/src/app/App.tsx:425-488 | every guarded commit carries the number of refreshes started so far and follows the resolution of its tenant with no start in between |
| `Refresh.ShellCommitsIncrease` | web/src/app/App.tsx:425-488 | full-shell commits have strictly increasing generations |
| `Refresh.NoCommitAfterDenial` | web/src/app/App.tsx:222-235 | after a denial nothing guarded commits until a new refresh starts |
| `Refresh.ActiveTenantIff` | web/src/app/App.tsx:222-305 | the active tenant is the one the newest refresh resolved, until a denial |
| `Refresh.DenialClears` | web/src/app/App.tsx:475-488 | a denial of a request of the newest refresh or of a current handler, or on the active tenant's stream, or for want of a tenant to choose, clears the active tenant and both views, and they stay clear over every continuation that starts no refresh |
| `Refresh.DataIsCommittedIffCurrent` | web/src/app/App.tsx:425-474 | the newest refresh's data is committed iff no denial came meanwhile; any other refresh's data changes nothing |
| `Refresh.ReplyIsCommittedIffCurrent` | web/src/app/App.tsx:545-608 | a current handler's reply is committed and starts its soft refresh; any other handler's changes nothing |
| `Refresh.OtherFailuresOnlySettle` | web/src/app/App.tsx:475-488 | a failure that is not a denial of current work changes nothing on display |
| `Refresh.TenantsResolveIffCurrent` | web/src/app/App.tsx:264-305 | the newest refresh makes the chosen tenant active and waits for its data, asks for activation first, or denies; a reply to any other refresh changes nothing |
| `Refresh.ActivationAsksAgain` | web/src/app/App.tsx:271-285 | after the activation the newest refresh asks for the tenants once more, and not again |
| `Refresh.UserStartsRefresh` | web/src/app/App.tsx:237-263 | with a token a refresh starts as asked, without one nothing happens; only a soft one keeps the display |
| `Refresh.StreamStartsRefresh` | web/src/app/App.tsx:507-513 | an event of the active tenant's stream starts a soft refresh for it, any other event does nothing |
| `Refresh.HandlerBegins` | web/src/app/App.tsx:534-545 | a handler remembers the refresh and the tenant it was begun under |
| `Refresh.DisplayBelongsToTenant` | web/src/app/App.tsx:237-305 | once the newest refresh has resolved a tenant, shell and detail are empty or loaded for it, or, only in a soft refresh, what was there when it began |
| `Refresh.ForeignDisplayIff` | web/src/app/App.tsx:237-305 | once the newest refresh has resolved a tenant, another tenant's shell is on display iff one was there as the refresh began and neither a shell commit nor a denial came since; and the same for the detail with detail commits |
| `Refresh.DisplayAtStart` | web/src/app/App.tsx:245-261 | what was there as the refresh began is the display right after the action that started it; the shell then is the one before that action, or none |
| `Refresh.SoftRefreshKeepsOldShell` | web/src/app/App.tsx:245-261 | however a soft refresh is started, by the user, a stream event or a handler, the reply that makes a tenant active leaves the old shell on display |
| `Refresh.SoftRefreshShowsOldTenant` | web/src/app/App.tsx:507-513 | a run from tenant a to tenant b: a's shell and detail under b while it loads, and a's detail beside b's shell after it has loaded |
| `OperatorShell.OperatorShell.DisplayOfTenant` | web/src/app/App.tsx:237-305 | for the fields of the component: the display law of `Refresh.DisplayBelongsToTenant` and `Refresh.ForeignDisplayIff` |
| `OperatorShell.OperatorShell.constructor` | web/src/app/App.tsx:204-205 | starts with nothing on display and no refresh started |
| `OperatorShell.OperatorShell.MarkActiveTenantDenied` | web/src/app/App.tsx:222-231 | no active tenant, shell and detail empty |
| `OperatorShell.OperatorShell.RefreshShell` | web/src/app/App.tsx:237-263 | the refs and the display after the call are those of the protocol step; without a token nothing starts |
| `OperatorShell.OperatorShell.OnTenants` | web/src/app/App.tsx:264-305 | the same when the principal and the tenants arrive: stale work stops, a tenant is chosen or denied, or sign-up comes first |
| `OperatorShell.OperatorShell.OnActivated` | web/src/app/App.tsx:271-285 | the same when the sign-up activation answers |
| `OperatorShell.OperatorShell.OnData` | web/src/app/App.tsx:425-474 | the same when a tenant's data arrives; the newest refresh's data is then on display unless access was denied |
| `OperatorShell.OperatorShell.OnFailure` | web/src/app/App.tsx:475-488 | the same when a request fails; a denial of current work leaves no active tenant and nothing on display |
| `OperatorShell.OperatorShell.StartHandler` | web/src/app/App.tsx:534-545 | a handler remembers generation and tenant; without a tenant nothing starts |
| `OperatorShell.OperatorShell.OnHandlerReply` | web/src/app/App.tsx:545-608 | the same when a handler's reply arrives; a current one's detail is then on display |
| `OperatorShell.OperatorShell.OnStreamEvent` | web/src/app/App.tsx:507-513 | an event of the active tenant's stream starts a soft refresh, any other does nothing |
| `OperatorShell.OperatorShell.OnStreamError` | web/src/app/App.tsx:514-524 | the same for a stream error; a denial on the active tenant's stream leaves nothing on display |
| `Permissions.MemberPermissions` | crates/channels/discord/src/transport.rs:257-290 | for every user each bit is set iff: the user is the owner; or a member that is Administrator by role or by overwrites; or a member for whom the last overwrite in the channel for it naming the bit allows it, else the last one for everyone or one of its roles, else the first role with the guild's or one of its role ids has it |
| `Permissions.RunPass` | crates/channels/discord/src/transport.rs:274-285 | one loop applies exactly the overwrites meant for the member or its roles, in their order |
| `Permissions.ApplyAllBit` | crates/channels/discord/src/transport.rs:274-285 | a sequence of mask operations leaves each bit as the last overwrite naming it says, allow beating deny, and else as it was |
| `Permissions.BaseBit` | crates/channels/discord/src/transport.rs:265-270 | the base has a bit iff the @everyone role or one of the member's known roles has it |
| `Permissions.LargerRolesGrantMore` | crates/channels/discord/src/transport.rs:265-289 | enlarging any role's permissions never takes a bit from anyone |
| `Permissions.OrderIrrelevantIffNoConflict` | crates/channels/discord/src/transport.rs:274-285 | a pass gives the same result in every order and from every start if and only if no bit is only denied by one overwrite and allowed by another |
| `Permissions.NoConflictClosedForm` | crates/channels/discord/src/transport.rs:274-280 | without such a conflict a pass is one mask operation: all denies off, then all allows on |
| `Permissions.OrderSensitiveIffMatters` | crates/channels/discord/src/transport.rs:257-290 | reordering a channel's overwrites can change a user's permissions iff the user is a member, neither owner nor Administrator by role, and the last pass naming the Administrator bit has a conflict on it, or that bit is settled off and the last pass naming some other bit has a conflict on it |
| `Destinations.MissingTextExact` | crates/channels/discord/src/transport.rs:836-848 | the text is empty iff view, send and read-history are all set; otherwise its comma-separated parts are exactly the names of the missing ones |
| `Destinations.UsableIffNothingMissing` | crates/channels/discord/src/transport.rs:293-304 | nothing is missing iff the channel is a direct message, or its guild is known and grants all three bits |
| `Destinations.FindChannel` | crates/channels/discord/src/transport.rs:174-178 | some guild's channel with the id, in no fixed order of guilds, or nothing iff no guild lists it |
| `Destinations.ValidateDestinations` | crates/channels/discord/src/transport.rs:676-757 | every destination is answered in place with its identity kept; every verdict is true of the gateway state; one reason code per state, a label that is never the raw id, and evidence that names exactly the permissions missing |
| `Destinations.ValidIffUsable` | crates/channels/discord/src/transport.rs:702-748 | a channel that one guild lists is valid iff the bot can use it |
| `Redaction.RedactedSegments` | crates/channels/discord/src/transport.rs:795-831 | the segments of the result are those of the trimmed route, in place and in number, with ids replaced; none looks like an id |
| `Redaction.SegmentsAre` | crates/channels/discord/src/transport.rs:795-831 | each segment of twelve or more characters, none but the digits 0 to 9, becomes `redacted_id`; every other one stays |
| `Redaction.UnchangedIffClean` | crates/channels/discord/src/transport.rs:795-831 | a route is left alone iff it is trimmed and has no id segment |
| `Redaction.RedactionIdempotent` | crates/channels/discord/src/transport.rs:795-831 | redacting twice is redacting once |
| `Redaction.SameRedaction` | crates/channels/discord/src/transport.rs:795-831 | two routes are redacted alike iff their trimmed segments agree up to ids |
| `Dedupe.KeysIdentify` | crates/channels/matrix/src/dedupe.rs:38-48 | if one event's fields have no NUL, another event has the same key iff tenant, connector, homeserver, conversation and event id agree, blanks around them aside |
| `Dedupe.BatchesDoNotCount` | crates/channels/matrix/src/dedupe.rs:36-48 | the sync batch and the transaction never count |
| `Dedupe.CollidesIffNul` | crates/channels/matrix/src/dedupe.rs:38-48 | an event whose key has only trimmed pieces shares it with another identity iff one of its fields holds a NUL |
| `Dedupe.DuplicateIffSameIdentity` | crates/channels/matrix/src/dedupe.rs:25-48 | if the earlier events have no NUL, an event's key repeats, and it is answered "duplicate", iff an earlier event has the same five trimmed fields |
| `Dedupe.DedupeCache.constructor` | crates/channels/matrix/src/dedupe.rs:10-21 | nothing seen |
| `Dedupe.DedupeCache.MarkDuplicate` | crates/channels/matrix/src/dedupe.rs:23-35 | false exactly for the first event of a key, whatever calls came before; as many events are let through as there are keys |

## Left out

- HTTP, WebSocket, SQLite, serde formats, thread spawning and rendering: input and output around the modelled logic.
- UTF-8 decoding in `readSSE`: the chunks are decoded characters; flushing the decoder adds at most one replacement character.
- Handler callbacks of the chat stream that throw: they are taken to return.
- Full event-stream format: the reader's own subset (LF only, `event` required, values trimmed) is what is modelled.
- Supervisor readers: the shared side of the read-write lock, `get` and `list_for_tenant` lookups change nothing and are only modelled where a property needs them.
- Supervisor.FailureCountIsTally: failure counts are natural numbers; 64-bit overflow and negative restored counts are not modelled.
- Supervisor.Supervisor.Register: capability maps, secret summaries and labels are not part of the connector record here, because no branch depends on them.
- Projections of capability profiles, setup-state and action labels, and support bundles: finite tables.
- Ranking.SortIsStable: the standard library's sort is modelled by insertion; that any stable sort gives the same list is proved.
- Management.SessionShowsListing: the connector list is assumed to have at most 2^63 - 1 entries, which every vector in memory has; `offset + limit` is not bounded to 64 bits.
- AgentRuntime.AgentRuntime.UpdateStepStatus: payload, input and output are values, so aliasing of objects the caller passes in and keeps is not captured; event ids and idempotency keys are left out.
- RuntimeHistory.StoredNeverChanges: checkpoint ids are unique in the source, so calls that save again under the same id are excluded; two live runtimes interleaving on one store are not modelled.
- RuntimeHistory.StatusesFollowTable: assumes step ids are unique, as the source's random ids are, and step payloads that do not contradict their call.
- Unguarded partial updates of the shell (channel detail, profiles) and form state: not part of the generation protocol; awaits between which nothing is assigned are one step, and state setters take effect at once.
- Membership panel, messages, loading flags and status texts of the operator shell: written beside the modelled state, never read by a guard.
- Destinations.ValidateDestinations: the class of the one fixed lookup error is a constant; the message classifier itself is not modelled.
- Mention stripping, diagnostics tables, readiness, conformance and smoke builders, and the durable duplicate check against the store.
