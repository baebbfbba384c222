# A verified model of the desktop session core

This project models the stateful core of the desktop application in Dafny and proves
what its comments promise. It is self-contained: `dafny verify dfyconfig.toml` checks
all of it.

Six parts, each independent of the others.

* **Windowed history** (`History*.dfy`). A session log is converted to display rows in
  one pass, or page by page, backward, under three budgets. A page converts only a
  window, after priming the state that crosses messages (planner displays queued per
  user text, and a suppression flag) and after looking up todo arguments and tool
  results outside the window. Main results: the exact condition on a log under which
  every page is a slice of the full conversion, and that following cursors with any
  budgets per request then gives exactly its rows, while a cursor of another state of the
  session is always refused. What each message shows is stated field by field. While the
  log grows the pages give each message as it was when its page was read. Pages of a
  source that need not cut a window for its raw span, a log in memory among them, are
  exact whatever its steer rows.
* **Lifecycle locks** (`Lifecycle*.dfy`). The rebuild mutex, the read-write admission
  barrier and the turn gate of each tab, as scripts of lock operations run by any number
  of threads under Go's rule that a waiting writer blocks new readers. Main results: no
  deadlock, every schedule completes, and in every run a turn, a build, a setter, a rebuild
  and a mutation hold their locks while they work, so that conflicting ones never do so at
  the same time (`LifecycleJobs.dfy`).
* **Bot bridge** (`WatchPersistence.dfy`, `TakeoverMaps.dfy`). Persisting watch
  subscriptions with sequence numbers under two locks, so that the hub watches, and the
  config after a reported success holds, exactly what was asked for last; and the two
  takeover maps.
* **Heartbeat** (`Heartbeat*.dfy`). Calendar arithmetic, the latest slot not after now for
  five kinds of rule, and the slots a run of ticks executes.
* **Smaller algorithms** (`DerivedCache.dfy`, `Utf8Chunks.dfy`, `Checkpoints.dfy`,
  `PromptTape.dfy`, `ExclusiveExport.dfy`).
* **Small protocols** (`DeferredRebuild.dfy`, `Metrics.dfy`).

Code that updates objects in place is a class or a loop proved against functions and
predicates on values; concurrent code is a state machine whose runs are all interleavings.

## Where the code and its promises part

Lemmas say of each of these exactly when the promise holds; most come with a lemma that
gives a family of inputs on which it does not.

* `consumeHistoryPlannerState` says it takes the same steps as `convertHistoryMessage`
  (`desktop/app.go:6063-6068`). It has no steer test for user rows that are not local-only,
  and the steer opening is not among the synthetic prefixes (`internal/agent/preview.go:254`).
  The hidden states agree exactly when no such steer row still has a planner display queued
  (`StepsAgreeIff`, `PrimingAgreesIff`). The desktop records a display under the text of the
  newest user row, which after a mid-turn steer is the steer's (`desktop/tabs.go:2059-2123`),
  so this does happen. A row is lost exactly when it follows, before the next authored user
  turn, a steer row at which priming takes the display of a cancelled turn
  (`AllWindowsExactIff`, `AllPagesExactIff`); `SteeredTurnLosesItsAnswer` gives such sessions
  under all text rules, and `SteerRowLosesTheAnswer` the pages that lack the answer. Where no
  window is over the raw-span cap, as in memory and in stored logs of ordinary size, pages
  begin with turns and lose nothing (`UncappedPagesJoin`), but a content reference to a lost
  row finds no row there either (`ReferenceResolvesIff`).
* `seedWatchers` says a stale refresh does not erase newer runtime state
  (`desktop/bot_bridge.go:468-470`). A refresh that reads the config after a watch command
  was counted but before that command's write installs the older snapshot, although the
  command is later reported as saved (`StaleReadDropsASavedWatch`, `RefreshInstallsNewestIff`).
* The automatic release in `DriveInput` acts on a binding read in an earlier critical
  section. If the tab changed hands in between, the maps stop being inverse and the new
  driver cannot be reclaimed from the desktop (`LateReleaseKeepsInverseIff`,
  `StaleReleaseStrandsTheNextDriver`).
* `previousHeartbeatScheduleAt` misses the latest slot in two cases: a weekly or biweekly
  rule that lists only today, with its time still ahead (`NothingFoundIff`,
  `MissedSlotIsOneWindowAgo`), and a monthly rule whose slot is still ahead on a day number
  the previous month does not have (`MonthlyIsLatestIff`). It happens on every 31 March and
  on every listed weekday (`MarchMissesFebruary`, `OwnDayFindsNothing`). In the first case the
  interval decides, and with an interval shorter than the rule's window the task can run off
  its slot (`OffSlotRunIff`, `DailyIntervalRunsOffSlot`).
* `mergeRunUpdatesLocked` writes back the run time of the snapshot a tick started from, so
  a manual trigger that ran meanwhile is forgotten and its slot is due again
  (`SecondMergeReopensIff`, `PutOffTickReopensTheSlot`).
* The chunk loop of long fields ends exactly when nowhere in the bytes 256 KiB of
  continuation bytes follow an offset, with more to come; so always on well-formed UTF-8, and
  never on text that contains a longer run of them (`LoopEndsIff`, `WellFormedProgresses`,
  `ContinuationBytesNeverEnd`). Text that came through JSON is well-formed, as decoding it
  replaces invalid bytes; so this concerns only text of a live log still as its producer left
  it, such as a tool result. The cap on those moves its cuts outward to character starts
  (`internal/agent/agent.go:3493-3520`) and so does not shorten such a run. Which tools pass
  ill-formed bytes on is not part of this model.
* The export does not overwrite or remove what others create, except between the check and
  the removal in `removeExportFileIfSame` (`desktop/app.go:11665-11673`): a file of theirs is
  hit if and only if they put it there then (`SaveExclusiveExportPayloads`), and they always
  can (`WindowHitsAnother`).
* `scheduleDeferredRebuild` says repeated calls for a tab collapse into one retry with the
  latest label (`desktop/deferred_rebuild.go:68-70`). A label scheduled while a pass is under
  way, as a change of currency does without the rebuild mutex
  (`desktop/settings_app.go:3602,3619`), survives that pass if and only if the pass does not
  clear the tab, because a clear asks for the tab alone (`LateLabelSurvivesIff`);
  `ClearErasesALateLabel` gives runs in which no retry ever carries it.
* A flush that overlaps an earlier one writes over the file it set aside and loses what was
  in it (`OverlappingFlushLosesIff`); a post whose answer is lost is delivered twice
  (`LostAnswerPostsTwice`).

One promise is stronger than needed: the turn gates of a mutation are taken in tab order,
but the proof shows that gates need no order among themselves, since only the one thread
that holds the write side holds several.

## Model

| member | source | states |
|---|---|---|
| HistoryConvert.HistoryMessageConvertState.constructor | desktop/app.go:5900-5912 | the initial state holds, per non-blank user hash, all recorded displays with rows, in recording order |
| HistoryConvert.PlannerTurnsByUserHash | desktop/app.go:6207-6216 | a hash is a key exactly when it is not blank and some display with rows was recorded for it, and its queue is those displays in order |
| HistoryConvert.HistoryMessageConvertState.ConvertHistoryMessage | desktop/app.go:5934-6061 | the rows and the new state of the first test the message meets; HistoryRows.ShowsWhat says what these rows show |
| HistoryConvert.HistoryMessageConvertState.ShowMessage | desktop/app.go:5988-6051 | a shown message gives its main row if it has one, then one row per present receipt in order, then the interruption notice if interrupted |
| HistoryConvert.HistoryMessageConvertState.MainRow | desktop/app.go:5952-6023 | the step by step construction gives the main row, whose fields HistoryRows.ShowsWhat states |
| HistoryConvert.HistoryMessageConvertState.HistoryToolCall | desktop/app.go:6237-6262 | a call keeps id, name and diff; a todo list and a call without id carry their arguments, any other whether it has some |
| HistoryRows.ShowsWhat | desktop/app.go:5934-6061 | by the first test it meets a message shows one receipt, one unapplied-steer warning, nothing, one steer notice, nothing, or, in order, its main row with every field as the message has it, its present receipts, the interruption notice of an interrupted local row, and the rows of the oldest display queued for its text |
| HistoryRows.ShowsOneRow | desktop/app.go:5984-6023 | the fields so stated leave nothing open: two main rows that have them are equal |
| HistoryRows.HidesAfterCancelledTurn | desktop/app.go:6052-6058 | after a message that is not held back the next ones are hidden exactly if the display it showed has a cancelled turn; a display shown leaves its queue, and no other queue changes |
| HistoryTheorems.UserRowsAreTurns | desktop/app.go:6159-6169 | where nothing hides it a message counts as a visible turn if and only if its first row is a user's bubble |
| HistoryConvert.HistoryMessageConvertState.ConsumeHistoryPlannerState | desktop/app.go:6069-6095 | the new state is that of the priming step, which differs from conversion in having no steer test for ordinary user rows |
| HistoryConvert.StepsAgreeIff | desktop/app.go:6063-6095 | one priming step leaves the state of one conversion step if and only if the message is not a visible steer row whose text has a display queued |
| HistoryConvert.PrimingAgreesIff | desktop/app.go:6063-6095 | priming leaves the queues and the flag of a full conversion at every prefix if and only if no message of the prefix diverges |
| HistoryConvert.ConvertedSplit | desktop/app.go:5914-5928 | converting from the middle with the state of the prefix continues the full conversion |
| HistoryConvert.NoPlannerTurnsNoState | desktop/history_slice.go:1106-1119 | without planner displays the state never leaves its initial value under either step, so skipping the priming pass loses nothing |
| HistoryConvert.DisplaysAreFifo | desktop/app.go:6052-6059 | after n shown user rows with one text exactly the n oldest displays recorded for it are gone |
| HistoryLookups.HistoryToolResultsById | desktop/app.go:6264-6273 | every non-blank id with a tool result maps to its newest result, and no other id is present |
| HistoryLookups.LookupExactIff | desktop/history_slice.go:1010-1053 | all windows around a call find the content the whole log finds if and only if the results at, before and after the call have that content |
| HistoryLookups.OrdinaryLogsAreExact | desktop/history_slice.go:1010-1015 | a log with at most one result per call id, after its call, satisfies that condition for all calls |
| HistoryLookups.WantedIds | desktop/history_slice.go:1017-1032 | the ids still wanted are those called in the window without a result in it |
| HistoryLookups.ExtendHistoryToolResults | desktop/history_slice.go:1016-1053 | results inside the window are kept; a wanted id gains exactly the first result past the newer edge, and nothing else is added |
| HistoryLookups.WindowToolResults | desktop/history_slice.go:914-917 | every call of the window is looked up as newest inside, else first past the edge |
| HistoryTodos.HistoryTodoArgsState.Consume | desktop/app.go:6468-6498 | one message advances the todo state by its successful calls in order |
| HistoryTodos.StreamSuccessful | desktop/history_slice.go:1058-1092 | reading in chunks collects exactly the successful call ids of the whole log |
| HistoryTodos.SuccessfulIff | desktop/history_slice.go:1058-1092 | a call is successful if and only if it has an id and some tool result under it does not say it failed |
| HistoryTodos.HistoryTodoArgsForSource | desktop/history_slice.go:1082-1104 | two chunked passes derive what the one-pass form derives, for every log length; no result only if a read fails |
| HistoryCut.CutUnique | desktop/history_slice.go:930-951 | the longest suffix within both budgets, or the newest group alone, is unique |
| HistoryCut.CutIsCut | desktop/history_slice.go:930-951 | every non-empty list of groups has such a suffix |
| HistoryCut.DroppedStaysDropped | desktop/history_slice.go:945-951 | a group dropped once cannot fit again when newer groups arrive |
| HistoryCut.Slide | desktop/history_slice.go:930-951 | appending the newest and dropping the oldest while over budget, with running counts, keeps exactly that suffix |
| HistoryCut.BackwardCut | desktop/history_slice.go:1570-1586 | the backward greedy walk over one-row groups keeps the same suffix as the sliding cut |
| HistoryPaging.ConvertAll | desktop/app.go:5914-5928 | one loop over the log gives, per message, the rows of a full conversion |
| HistoryPaging.EntryOrderIncreases | desktop/history_slice.go:34-43 | message index and sub-order number the entries strictly in display order |
| HistoryPaging.EntriesCarryRows | desktop/history_slice.go:1123-1160 | the entries of a whole conversion carry exactly its rows, in order |
| HistoryPaging.EntryNamesItsRow | desktop/history_slice.go:34-43 | session, epoch, message index and sub-order of an entry lead back to its row |
| HistoryPaging.RowsAlike | desktop/app.go:5934-6061 | lookups that agree on a message's own calls and index give the same rows |
| HistoryPaging.SearchTurns | desktop/history_slice.go:881-887 | the binary search finds the first message of the oldest turn wanted |
| HistoryPaging.FindCandidate | desktop/history_slice.go:875-894 | the candidate window starts where the turn budget and the raw-span cap put it, and is never empty |
| HistoryPaging.PrimeHistoryPlannerState | desktop/history_slice.go:1109-1119 | chunked priming leaves the state of consuming the whole prefix, also when it is skipped |
| HistoryPaging.ReadLookups | desktop/history_slice.go:904-917 | the lookups read for a window are indistinguishable, for its messages, from the declared ones |
| HistoryPaging.MakeEntries | desktop/history_slice.go:936-941 | the entries of a message and their byte weight |
| HistoryPaging.ConvertWindow | desktop/history_slice.go:919-952 | the groups left after the loop are the suffix of the window's groups that the budgets allow |
| HistoryPaging.CutWindow | desktop/history_slice.go:926-960 | the page starts at the oldest kept message and its entries are all rows from there on |
| HistoryPaging.KeptGroupsFlatten | desktop/history_slice.go:954-960 | kept groups joined are all entries from the oldest kept message on; messages without rows leave no gap |
| HistoryPaging.TurnSpan | desktop/history_slice.go:961-971 | start and end turn are the least and greatest visible turn of the page, 0 when it shows none |
| HistoryPaging.TurnRange | desktop/history_slice.go:961-971 | the loop computes those two |
| HistoryPaging.PageHistorySliceSource | desktop/history_slice.go:855-983 | the answer is the declared page: refused as HistoryTheorems.StaleIff says, empty, or the cut of the candidate window with its cursor; no answer only if a read fails |
| HistorySteers.PrimingRelates | desktop/app.go:6063-6095 | primed and full state differ in nothing that a message other than a steer can tell apart, and in the flag only after priming took a suppressing display at a steer row |
| HistorySteers.LostRowIsMissing | desktop/app.go:6069-6095 | a row that follows such a steer row before the next authored user turn is missing from every window that starts in between, and present in the full conversion |
| HistorySteers.AllWindowsExactIff | desktop/history_slice.go:855-983 | all windows show the rows of the full conversion if and only if the log has no such row |
| HistorySteers.WindowExactIff | desktop/history_slice.go:855-983 | one window does if and only if none of its rows is lost to a steer row before its start, whatever was lost earlier, provided shown user rows are authored |
| HistorySteers.TurnStartLosesNothing | desktop/history_slice.go:875-888 | a window that starts with an authored user turn, or with the log, loses nothing |
| HistorySteers.CandidateWindowIsFull | desktop/history_slice.go:855-983 | the window a page is cut from shows the rows of the full conversion, when no row is lost, or turns begin with authored users and no window is over the raw-span cap |
| HistorySteers.NoDivergenceLosesNothing | desktop/app.go:6063-6095 | where priming and conversion never differ in state, no row is lost |
| HistoryTheorems.PageIsFullSlice | desktop/history_slice.go:45-52 | when no row is lost, or windows begin with turns, every page is a contiguous slice of the full conversion and its cursor is strictly older and accepted |
| HistoryTheorems.PagesJoinToFullConversion | desktop/history_slice.go:45-52 | under the same condition, for all budgets per request, the pages joined oldest first are the full conversion up to the cursor, with nothing twice and nothing left out |
| HistoryTheorems.ChainReproducesEveryRow | desktop/history_slice.go:45-52 | from the empty cursor the chain carries exactly the rows of one full conversion, in order |
| HistoryTheorems.StaleIff | desktop/history_slice.go:364-372 | a page is refused if and only if its request has a cursor that differs from the source in whether the revision is known, in the digest, or in a known revision; then it has no entries, no next cursor and no older page |
| HistoryTheorems.CursorExpiresIff | desktop/history_slice.go:855-861 | a cursor issued by any page of a session as it was is refused by the session as it is now if and only if its revision or digest has changed since |
| HistoryTheorems.UncappedPagesJoin | desktop/history_slice.go:875-894 | the chain over a source none of whose windows is over the raw-span cap, in memory or stored, carries exactly the rows of one full conversion, whatever its steer rows and planner displays |
| HistoryTheorems.NoPlannerNoDivergence | desktop/history_slice.go:1106-1119 | without planner displays no message diverges, whatever its steer rows |
| HistoryTheorems.SyntheticSteersAreExact | desktop/app.go:6063-6068 | if all steer rows were shown as synthetic, no message would diverge |
| HistoryTheorems.CutWithinBudgets | desktop/history_slice.go:945-951 | a page is within the entry and the byte budget unless it is one message alone |
| HistoryTheorems.CutIsLongest | desktop/history_slice.go:945-951 | no further message of the window with rows would have fitted |
| HistoryTheorems.PageStaysWithinTurns | desktop/history_slice.go:875-887 | a page reaches back over at most the requested number of visible turns |
| HistoryTheorems.WindowReachesBack | desktop/history_slice.go:875-894 | every message before the window is of a turn too old, or too large to be read from |
| HistoryTheorems.RowForReference | desktop/history_slice.go:1441-1472 | a content reference gets the row under its index of its message converted on its own, and nothing if its known flag, digest or known revision differs from the source or its message is outside |
| HistoryTheorems.ReferenceResolvesIff | desktop/history_slice.go:1441-1472 | those are the rows of the full conversion if and only if the message's rows are not lost behind a steer row |
| HistoryTheorems.NewInMemoryHistorySliceSource | desktop/history_slice.go:515-552 | every message gets the number of visible user messages up to it as its turn, so turns do not decrease |
| HistoryTheorems.TurnBeginsIff | desktop/app.go:6159-6169 | a turn begins with exactly the user messages that are neither steers nor synthetic |
| HistoryLiveSource.LiveHistorySliceSource | desktop/history_slice.go:443-510 | the display index is used exactly when the log only grew since it was saved, is not empty and not shorter, and flag, digest and known revision are those saved; turns and roles then come from it, counting on over the unsaved tail, else from classifying the snapshot |
| HistoryLiveSource.IndexedIsFullIff | desktop/history_slice.go:460-474 | the classification through the index is the full one for the whole log, turns, roles and total, if and only if the index agrees with it on what it covers and in its total; with unsaved messages the turns and roles alone decide, and only a fully saved log needs the total |
| HistoryLiveSource.LiveTurnsAscendIff | desktop/history_slice.go:457-474 | the live turns do not decrease, as the binary search needs, if and only if the index's do and none is above the first unsaved message's |
| HistoryTheorems.VisibleTurnsGrow | desktop/app.go:6149-6169 | visible turn numbers do not decrease along a log |
| HistorySteerGap.EmptyWindowMovesOn | desktop/history_slice.go:954-983 | a window without rows gives an empty page whose cursor is its start, so the chain still ends |
| HistorySteerGap.AllPagesExactIff | desktop/history_slice.go:45-52 | under every raw-span estimate, every request with a cursor of the session gets the matching slice of the full conversion, if and only if no row is lost behind a steer row |
| HistorySteerGap.SteerRowLosesTheAnswer | desktop/app.go:6069-6095 | for all sessions whose newest rows are lost and read alone, whatever the budgets, no page has them although the full conversion does |
| HistorySteerGap.SteeredTurnLosesItsAnswer | desktop/tabs.go:2059-2123 | under all text rules a question, a steer with the cancelled display recorded under its text, and an answer are such a session |
| HistoryGrowth.GrowthKeepsRows | desktop/app.go:5914-5928 | an older message whose own lookups did not change keeps its rows in the full conversion, whatever is appended |
| HistoryGrowth.AnswerChangesIff | desktop/app.go:6264-6273 | where calls are looked up exactly, an older call shows other content in the longer log if and only if it had no result and a non-empty one was appended |
| HistoryGrowth.LookupsStay | desktop/app.go:6468-6498 | an older message's lookups stay if none of its unanswered calls is answered and what is appended finishes no older todo |
| HistoryGrowth.GrowingPagesShow | desktop/history_slice.go:364-372 | while a live log grows unsaved between requests, whatever is appended, the pages joined show every message once, in order, with the rows a full conversion gave it when its page was read |
| HistoryGrowth.GrowingPagesJoinIff | desktop/history_slice.go:364-372 | they are the full conversion of the log as it was at the first request if and only if each message still had its rows when its page was read |
| HistoryGrowth.GrowingPagesJoin | desktop/history_slice.go:364-372 | so when what is appended leaves the lookups of the messages still to be read |
| HistoryEventRows.BackwardWalkAgrees | desktop/history_slice.go:1570-1586 | on rows already converted the backward walk starts the page where the sliding cut would |
| HistoryEventRows.PageHistoryEventRows | desktop/history_slice.go:1535-1606 | the page of an event-log session is the cut of its rows, stale exactly when the digest differs |
| HistoryEventRows.EventStaleIff | desktop/history_slice.go:1535-1606 | a page is refused, and then empty, if and only if its cursor has another digest |
| HistoryEventRows.EventPagesJoin | desktop/history_slice.go:1535-1606 | event pages joined oldest first are exactly the rows, under no further condition |
| HistoryEventRows.EventChainShowsEveryRow | desktop/history_slice.go:1535-1606 | the chain shows every row once and in order |
| LifecycleLocks.RunsKeepInv | desktop/app.go:195-208 | in all reachable states, for any number of threads and tabs, the locks record exactly what threads hold, and the writer excludes readers and a second writer |
| LifecycleLocks.WriterExcludesTurns | desktop/app.go:202-208 | while a thread holds the write side no other thread reads, writes or rebuilds |
| LifecycleLocks.WritingFacts | desktop/app.go:206-208 | a writer, waiting or holding, holds the rebuild mutex |
| LifecycleLocks.WaitingWriterAdmitsNoReader | desktop/app.go:202-208 | while a writer waits the set of readers only shrinks, and it goes on waiting until they are gone |
| LifecycleLocks.NeverDeadlocks | desktop/app.go:195-208 | whenever a thread is unfinished some thread can move, although turns and rebuilds take gate and read side in opposite orders |
| LifecycleLocks.GateHolderMoves | desktop/app.go:1190-1235 | the holder of a gate other than the writer can always move |
| LifecycleLocks.EveryScheduleCompletes | desktop/app.go:195-208 | once arrivals stop, no schedule is longer than the steps the scripts have left, and it can go no further exactly when all threads have finished, after just that many steps |
| LifecycleLocks.SmallScriptsAreDisciplined | desktop/app.go:1190-1235 | turns, controller builds and gate-only setters obey the discipline the results need |
| LifecycleLocks.RebuildIsDisciplined | desktop/app.go:10287-10310 | a rebuild with any number of workspace repairs under its gate obeys it |
| LifecycleLocks.MutationIsDisciplined | desktop/app.go:7837-7851 | a mutation over any tabs obeys it, whatever the order of its gates |
| LifecycleLocks.ReaderTakingRebuildDeadlocks | desktop/app.go:207-208 | why read holders must never take the rebuild mutex: one that does and one mutation reach a state where neither can move |
| LifecycleJobs.JobHolds | desktop/app.go:1190-1235 | along the script of a turn, build, setter, rebuild or mutation, while at work it holds what that job needs |
| LifecycleJobs.JobsWork | desktop/app.go:1190-1235 | each of these scripts is disciplined and does come to its work |
| LifecycleJobs.WorkIsSecured | desktop/app.go:195-208 | in every run, whatever else goes on: a turn at work reads and has its tab's gate, a build reads, a setter has its gate, a rebuild has the rebuild mutex and its tab's gate, a mutation has the rebuild mutex, the write side and the gates of all its tabs |
| LifecycleJobs.ConflictsNeverMeet | desktop/app.go:202-208 | in every run no turn, build, rebuild or second mutation is at work while a mutation is, no two rebuilds are, and no two jobs on one gate, such as a turn and a rebuild of the same tab |
| LifecycleLocks.TabTurnAdmission.Finish | desktop/app.go:1164-1186 | the first call gives back the read hold and the gate, later calls change nothing |
| LifecycleLocks.StartTurn | desktop/app.go:1154-1186 | a turn that finishes and then runs its deferred abort gives both back exactly once |
| WatchPersistence.StepKeepsInv | desktop/bot_bridge.go:425-486 | every step of any call keeps the invariant and moves neither the stored number nor the snapshot on disk back |
| WatchPersistence.ConfigHoldsASnapshot | desktop/bot_bridge.go:441-459 | in every interleaving disk holds the snapshot of one call, no reported success is newer than it, and when nothing is dirty it is the newest |
| WatchPersistence.LatestSuccessIsOnDisk | desktop/bot_bridge.go:425-460 | if the latest call reported success, disk is its snapshot and nothing is dirty |
| WatchPersistence.WatchersAsAsked | desktop/bot_bridge.go:425-436 | in every state of every run a chat is watched, under a given route, if and only if the last command for it since the last effective refresh enabled that route, or there was none and the base had it |
| WatchPersistence.CountsFromSomewhere | desktop/bot_bridge.go:471-486 | every run has such a base: what the last effective refresh installed, or the starting config |
| WatchPersistence.SnapshotIsWatchers | desktop/bot_bridge.go:433-436 | the snapshot of a command is what was watched as it took effect, and stays so |
| WatchPersistence.DiskHoldsWhatWasAskedFor | desktop/bot_bridge.go:425-460 | once the latest command has reported success the config holds exactly the subscriptions asked for last |
| WatchPersistence.DiskNeverGoesBack | desktop/bot_bridge.go:441-453 | over any stretch of any run the snapshot on disk never gets older |
| WatchPersistence.SeedNeedsEverythingSaved | desktop/bot_bridge.go:468-478 | a seed changes the running map only if no command ran since its version and all commands are saved |
| WatchPersistence.RefreshInstallsNewestIff | desktop/bot_runtime_app.go:79-95 | a refresh installs exactly the snapshot that was on disk when it read, and that is the newest if and only if the newest command had got past its write by then |
| WatchPersistence.StaleReadDropsASavedWatch | desktop/bot_bridge.go:468-486 | a run in which a subscription reported as saved and still on disk is gone from the running hub |
| WatchPersistence.SeededHolds | desktop/bot_bridge.go:479-485 | exactly the keys of config rows with a chat are seeded, each with the last such row |
| TakeoverMaps.BotBridgeHub.Takeover | desktop/bot_bridge.go:560-604 | accepted exactly for a direct chat, an open session and a tab nobody else holds; then the chat drives that tab alone and the tab it drove before is freed and reported; else nothing changes; mutual inverses stay so |
| TakeoverMaps.BotBridgeHub.Release | desktop/bot_bridge.go:606-626 | both directions of the chat's binding go, or nothing changes; mutual inverses stay so |
| TakeoverMaps.BotBridgeHub.ReclaimFromDesktop | desktop/bot_bridge.go:674-680 | both directions of the tab's binding go and its driver is named, or nothing changes; mutual inverses stay so |
| TakeoverMaps.BotBridgeHub.DriveInputLateRelease | desktop/bot_bridge.go:642-648 | when the session read earlier is gone both keys are deleted, unconditionally; mutual inverses stay so exactly when the binding read is settled |
| TakeoverMaps.BoundTouchesOne | desktop/bot_bridge.go:582-589 | a takeover touches no other chat and gives no other tab a driver |
| TakeoverMaps.RefusedIff | desktop/bot_bridge.go:562-577 | each refusal in exactly its case: not a direct chat, unknown session, detached session, held by another chat; accepted in exactly the others |
| TakeoverMaps.OnlyDirectChatsDrive | desktop/bot_bridge.go:562-569 | after any sequence of operations every tab's driver is a direct chat |
| TakeoverMaps.KeyTellsChats | internal/bot/desktop.go:44-46 | two chats of one connection share a key if and only if they are the same chat |
| TakeoverMaps.TakeoverKeepsInverse | desktop/bot_bridge.go:578-589 | an accepted takeover, also one that switches tabs, keeps the maps mutual inverses |
| TakeoverMaps.ReclaimKeepsInverse | desktop/bot_bridge.go:674-680 | a reclaim keeps them inverse and leaves the tab without driver in both directions |
| TakeoverMaps.LateReleaseKeepsInverseIff | desktop/bot_bridge.go:634-648 | the automatic release keeps them inverse if and only if the binding it read is still current or already gone on both sides |
| TakeoverMaps.RunsKeepInverse | desktop/bot_bridge.go:560-680 | every run whose late releases found their binding settled keeps the maps mutual inverses |
| TakeoverMaps.StaleReleaseStrandsTheNextDriver | desktop/bot_bridge.go:634-648 | for any two chats a run after which the second drives a tab the desktop cannot reclaim |
| HeartbeatCalendar.YearLength | desktop/heartbeat.go:789-811 | the closed form of year starts has leap years exactly where the Gregorian rule puts them |
| HeartbeatCalendar.MonthUnique | desktop/heartbeat.go:789-811 | every day, of any year, lies in exactly one month |
| HeartbeatCalendar.DateRoundTrip | desktop/heartbeat.go:789-811 | taking a time apart and putting it together changes nothing; shifting by days moves the day and keeps the clock |
| HeartbeatCalendar.DateReadsBack | desktop/heartbeat.go:789-791 | a date within its month reads back as written |
| HeartbeatCalendar.EpochIsDayZero | desktop/heartbeat.go:789-811 | time 0 is midnight of Thursday, 1 January 1970 |
| HeartbeatCalendar.DaysInMonthIsItsLength | desktop/heartbeat.go:803-805 | the zeroth day of the next month gives the month's length, December included |
| HeartbeatSchedule.PreviousWeeklyAt | desktop/heartbeat.go:682-703 | the nested search returns the newest accepted day of the window, or none if there is none |
| HeartbeatSchedule.ParityIsWeeksBetween | desktop/heartbeat.go:696-697 | the difference of week starts is even exactly when Monday-based week numbers have the same parity |
| HeartbeatSchedule.DailyIsLatest | desktop/heartbeat.go:662-667 | daily: always the greatest slot not after now |
| HeartbeatSchedule.CandidateIsMonthSlot | desktop/heartbeat.go:793-801 | the candidate is the named day clamped into the month |
| HeartbeatSchedule.MonthlyIsLatestIff | desktop/heartbeat.go:705-712 | monthly: the greatest slot not after now if and only if not (this month's slot is ahead and today's day number exceeds the previous month's length); in that case the answer is still ahead |
| HeartbeatSchedule.MarchMissesFebruary | desktop/heartbeat.go:705-712 | every year on 31 March, before the time of a rule for day 31, the search answers with today's slot although the greatest one is at the end of February |
| HeartbeatSchedule.YearlyIsLatest | desktop/heartbeat.go:714-721 | yearly: always the greatest slot not after now, 29 February included |
| HeartbeatSchedule.NothingFoundIff | desktop/heartbeat.go:682-703 | weekly and biweekly: no day is accepted if and only if only today is listed (in an even week) and its time is ahead |
| HeartbeatSchedule.NewestAcceptedIsLatest | desktop/heartbeat.go:682-703 | the newest accepted day of the window gives the greatest slot of all |
| HeartbeatSchedule.MissedSlotIsOneWindowAgo | desktop/heartbeat.go:682-703 | where nothing is found the greatest slot exists, exactly 7 or 14 days ago |
| HeartbeatSchedule.OwnDayFindsNothing | desktop/heartbeat.go:682-703 | every day, before the time of a weekly rule for that weekday alone or a biweekly one in its week, nothing is found although a slot lies 7 or 14 days back |
| HeartbeatSchedule.PreviousScheduleAt | desktop/heartbeat.go:656-680 | for every rule: none, the greatest slot, or one still ahead, each exactly in the named case |
| HeartbeatRuns.HeartbeatTaskDueAt | desktop/heartbeat.go:515-553 | under a rule a task is due exactly when some slot has come that is not older than the task and newer than its last run, except in the monthly case; else the interval decides |
| HeartbeatRuns.WindowIsAStretch | desktop/heartbeat.go:555-588 | a time window is the stretch of the day from its start to its end, around midnight if need be, the whole day if both are equal |
| HeartbeatRuns.IntervalCountsFrom | desktop/heartbeat.go:526-553 | without a rule a task is due an interval after its last run, or after its creation if it never ran, or at once; a window only puts that off |
| HeartbeatRuns.BiweeklyKeepsItsWeeks | desktop/heartbeat.go:656-680 | a slot run by a biweekly rule lies an even number of weeks from the one the task was made in, or else was last run in |
| HeartbeatRuns.SlotsRunInOrder | desktop/heartbeat.go:192-215 | over any ticks in order, for every kind of rule, the slots run strictly increase, so none runs twice; each is not after its tick and not older than the task |
| HeartbeatRuns.RunTakesAnUnconsumedSlot | desktop/heartbeat.go:381-385 | a run for a slot leaves a run time that covers it; a submitted run dates a task without creation time |
| HeartbeatRuns.CreatedAtStays | desktop/heartbeat.go:480-482 | a creation time once set survives all ticks |
| HeartbeatRuns.OffSlotRunIff | desktop/heartbeat.go:515-553 | where the rule finds nothing the task is due exactly when its interval has passed since its last run; it runs again for a slot already run exactly when the last run lies between that slot and an interval ago, which an interval of at least the window excludes |
| HeartbeatRuns.DailyIntervalRunsOffSlot | desktop/heartbeat.go:515-553 | with an interval of a day on a rule for one weekday the task is due that morning although last week's slot was run |
| HeartbeatRuns.HeartbeatEngine.MergeRunUpdatesLocked | desktop/heartbeat.go:458-493 | the list is the file's list as it is now, with ids, order and definitions untouched and only run state taken over |
| HeartbeatRuns.SecondMergeReopensIff | desktop/heartbeat.go:458-493 | of two overlapping runs, a slot the first covered is due again if and only if the run time merged last is set and older than the slot |
| HeartbeatRuns.PutOffTickReopensTheSlot | desktop/heartbeat.go:192-215 | a tick that put a task off while a manual trigger ran it sets the run time back, and the slot is due a second time |
| DerivedCache.HistoryDerivedCache.TouchLocked | desktop/history_slice.go:327-335 | the key moves to the end of the use order |
| DerivedCache.HistoryDerivedCache.PruneLocked | desktop/history_slice.go:337-362 | the loop evicts as the specification of pruning does |
| DerivedCache.HistoryDerivedCache.Enter | desktop/history_slice.go:291-306 | joins a known key's entry and touches it, or becomes leader, appends the key and prunes |
| DerivedCache.HistoryDerivedCache.Finalize | desktop/history_slice.go:310-323 | a failed leader's entry goes if it is still its own, then pruning |
| DerivedCache.PruneHolds | desktop/history_slice.go:337-362 | pruning drops finished entries only, least recently used first, only down to four, and stops above four only when all are unfinished |
| DerivedCache.TouchMovesToEnd | desktop/history_slice.go:327-335 | a hit moves its key to the end of the use order and leaves the others in theirs |
| DerivedCache.HitGoesLast | desktop/history_slice.go:337-362 | an entry just used goes only after all other finished ones |
| DerivedCache.CacheIsCorrect | desktop/history_slice.go:278-325 | in every interleaving: one computation per key in flight, every call returns its leader's result, no finished failure is cached, the order lists the keys without repeats, and nobody waits in vain |
| DerivedCache.CacheStaysSmall | desktop/history_slice.go:337-362 | more than four entries only while at least as many leaders are unfinished; at most four when idle |
| DerivedCache.CacheAgreesWithFunction | desktop/history_slice.go:278-325 | whatever a call returns, unless it failed, is the value of the cached function for its own key |
| Utf8Chunks.CutAtStart | desktop/history_slice.go:1240-1249 | cutting well-formed text where a character starts leaves two well-formed parts |
| Utf8Chunks.StartIsNear | desktop/history_slice.go:1240-1249 | in well-formed text a character start is at most three bytes back |
| Utf8Chunks.NoProgressIff | desktop/history_slice.go:1240-1249 | a chunk is empty if and only if 256 KiB of continuation bytes follow |
| Utf8Chunks.LoopEndsIff | desktop/history_slice.go:1227-1236 | for any bytes the chunk loop ends if and only if nowhere in them 256 KiB of continuation bytes follow an offset with more to come |
| Utf8Chunks.ContinuationBytesNeverEnd | desktop/history_slice.go:1227-1236 | on any text that contains 256 KiB and one of continuation bytes in a row the loop does not end |
| Utf8Chunks.WellFormedProgresses | desktop/history_slice.go:1227-1236 | well-formed text has no such offset |
| Utf8Chunks.HistoryContentChunkEnd | desktop/history_slice.go:1240-1249 | the end is the last character start not beyond 256 KiB, or the end of the text |
| Utf8Chunks.HistoryContentChunkCount | desktop/history_slice.go:1227-1236 | the count is the number of chunks, one for the empty string |
| Utf8Chunks.HistoryContentChunkAt | desktop/history_slice.go:1253-1266 | the chunk asked for, the first for a negative index, nothing past the end, and the count |
| Utf8Chunks.ChunksReassemble | desktop/history_slice.go:1225-1266 | chunks of well-formed text join to it, are well-formed and at most 256 KiB, and all but the last are within three bytes of full |
| Checkpoints.LessIsTotal | desktop/app.go:2697 | the string order is total |
| Checkpoints.LessIff | desktop/app.go:2697 | the first difference decides, and a proper prefix comes first |
| Checkpoints.PreviewUnique | desktop/app.go:2693-2713 | there is one list of the least non-empty paths in order |
| Checkpoints.PreviewSize | desktop/app.go:2661-2690 | it shows all non-empty paths if they fit and is full otherwise |
| Checkpoints.SearchStrings | desktop/app.go:2697 | the index is the number of paths less than the one sought |
| Checkpoints.InsertCheckpointFilePreview | desktop/app.go:2693-2713 | the in-place shift turns the preview of a set into the preview of the set with one more path |
| Checkpoints.CheckpointsForTab | desktop/app.go:2661-2691 | every row counts the union of files from its turn on, previews it in an array of its own, and can rewind exactly when some turn from it on has files and all such turns can be undone |
| Checkpoints.FilesFromHolds | desktop/app.go:2661-2665 | exactly the files of later-or-equal turns count |
| PromptTape.PromptHistoryLimit | desktop/app.go:4803-4811 | a limit is always between 1 and 200, and kept when it already is; none asked for is 50, one too large 200 |
| PromptTape.PromptHistoryTape.EntriesForSession | desktop/app.go:4931-4954 | a session read before gives what was kept; else what reading gives, errors passed on, and that, or nothing on an error, is kept |
| PromptTape.PromptHistoryTape.StartsWhere | desktop/app.go:4872-4882 | a cursor of this tape goes on where it says; none, or one of another tape, starts anew |
| PromptTape.PromptHistoryTape.ReadOlder | desktop/app.go:4872-4916 | a page is the sessions' entries, as kept or as reading gives them, from its cursor to the next or to the end; a page with a next cursor is full and moves on |
| PromptTape.PromptHistoryTape.ReadAll | desktop/app.go:4918-4929 | ends with what reading all sessions gives, in order, an unreadable one as empty |
| PromptTape.TapeStays | desktop/app.go:4931-4954 | reading on never changes a session's entries |
| PromptTape.BetweenJoins | desktop/app.go:4872-4916 | adjacent stretches of the tape join, so pages under any limits join |
| PromptTape.WholeTape | desktop/app.go:4918-4929 | the stretch from start to end is all sessions' entries |
| ExclusiveExport.CreateExportTempFile | desktop/app.go:11582-11608 | a fresh empty staging file of our own, or none left behind |
| ExclusiveExport.CommitStagedExportFile | desktop/app.go:11610-11657 | the target leads to a complete file of ours, or nothing of ours has gained a name |
| ExclusiveExport.CopyStagedExportFile | desktop/app.go:11630-11657 | the same for the fallback without hard links |
| ExclusiveExport.FileSystem.RemoveExportFileIfSame | desktop/app.go:11665-11673 | afterwards the name does not lead to our file; another's file is hit if and only if put there between check and removal |
| ExclusiveExport.RollbackCommittedExportFiles | desktop/app.go:11659-11663 | afterwards our files have no names but staging names |
| ExclusiveExport.TargetsAreFree | desktop/app.go:11522-11528 | free if and only if no target is there when it is looked at; a refusal leaves the world as it was found then |
| ExclusiveExport.StageAndCommit | desktop/app.go:11530-11576 | fails only if a payload cannot be read, a call failed or met a taken name, or others touched a target; left alone it succeeds exactly if payloads are readable and targets are absent and all different |
| ExclusiveExport.SaveExclusiveExportPayloads | desktop/app.go:11518-11576 | all or nothing under interference: on failure nothing of ours is left, on success every target at which others did not remove or replace the file made here holds its payload, and no staging file is left; a file of others is hit if and only if put into the window between a check and its removal; a failure has one of the named causes, a target found at the inspection leaves the world as it was found, and left alone the export succeeds if and only if the numbers fit, the targets are absent and different, and all payloads can be read |
| ExclusiveExport.WindowHitsAnother | desktop/app.go:11665-11673 | whatever the world in which a published file is about to be rolled back, others can lose a file of theirs in that window |
| DeferredRebuild.DeferredRebuildState.Schedule | desktop/deferred_rebuild.go:71-87 | refused when blank or stopped, else recorded under the latest label, and a loop started exactly when none runs |
| DeferredRebuild.DeferredRebuildState.Stop | desktop/deferred_rebuild.go:118-129 | closes the channel only on the first stop and only if it was made |
| DeferredRebuild.DeferredRebuildState.Tick | desktop/deferred_rebuild.go:156-174 | either done, clearing running only when told to, or a copy of all pending work |
| DeferredRebuild.NoWakeupIsLost | desktop/deferred_rebuild.go:46-174 | in every interleaving: armed, not stopped and pending implies a running loop whose own next steps lead to a pass over all that is pending; at most one loop is alive; the channel is closed at most once |
| DeferredRebuild.NextPassTakesTheTab | desktop/deferred_rebuild.go:156-174 | over runs, whatever happens in between, the next pass that begins takes up every tab that was pending and not cleared since |
| DeferredRebuild.LabelPendingIff | desktop/deferred_rebuild.go:68-106 | over runs, the label recorded last for a tab is still pending if and only if nobody cleared the tab since: another caller, a pass, or a kick |
| DeferredRebuild.PassKeepsItsCopy | desktop/deferred_rebuild.go:156-174 | until it ends a pass works on what was pending as it began, whatever is scheduled meanwhile |
| DeferredRebuild.LateLabelSurvivesIff | desktop/deferred_rebuild.go:101-106 | the pass keeps to the copy it made before a later label was scheduled, and the label outlives the pass if and only if the pass does not clear the tab, when other callers and kicks leave the tab alone |
| DeferredRebuild.ClearErasesALateLabel | desktop/deferred_rebuild.go:235-244 | for any two labels there is a run in which the later one is erased by the pass over the earlier, the loop goes idle, and no pass took the later one up |
| DeferredRebuild.KickIsAPass | desktop/deferred_rebuild.go:176-183 | a kick can clear every tab that was pending, until it returns, and does not touch the loop |
| DeferredRebuild.StopIsFinal | desktop/deferred_rebuild.go:118-148 | after the stop nothing is added, nothing starts, and the loop that is left exits |
| DeferredRebuild.MarkingKickWouldFork | desktop/deferred_rebuild.go:156-183 | a kick that marked the state idle would let two loops live at once; the real one starts none |
| Metrics.CounterTable.Merge | desktop/metrics_app.go:46-52 | in whatever order the maps are walked, every count is the sum |
| Metrics.StepKeepsHeld | desktop/metrics_app.go:475-569 | each step of an increment, a persist or a flush keeps what is held equal to what was counted |
| Metrics.CountsAreConserved | desktop/metrics_app.go:475-569 | in every interleaving memory, in flight, pending, set aside and posted add up, per signal and bucket, to what was counted and what lost answers made it post again |
| Metrics.NoLostAnswerNothingTwice | desktop/metrics_app.go:538-592 | as long as no answer to a post is lost nothing is posted twice |
| Metrics.LostAnswerPostsTwice | desktop/metrics_app.go:571-592 | a lost answer posts a second time exactly what was delivered |
| Metrics.CountedIsIncrements | desktop/metrics_app.go:66-70 | what was counted is one per increment |
| Metrics.PositiveHolds | desktop/metrics_app.go:523-533 | leaving out counts that are not positive leaves every count |
| Metrics.OverlappingFlushLosesIff | desktop/metrics_app.go:538-569 | after any run, a flush that starts while another has the file aside loses exactly what that one carried, so counts stay conserved if and only if that was nothing |

## Left out

- HistoryTheorems.ChainReproducesEveryRow: for cold sources the condition is exact for pages under all raw-span estimates (HistorySteerGap.AllPagesExactIff); a single estimate may happen to cut no window behind a steer row. All of it takes logs whose calls are looked up exactly (HistoryLookups.OrdinaryLogsAreExact) and display keys that no steer shares with another message, as digests of the text do not.
- HistorySteers.WindowExactIff: takes shown user rows to be authored; a user row without text is shown but not authored, and may then take a display the primed pass leaves.
- HistoryPaging.ReadLookups: derives the todo arguments directly; that the cache in between agrees with the derivation is DerivedCache.CacheAgreesWithFunction.
- HistoryPaging.PageHistorySliceSource: leaves the answer open when a read fails, and treats a read of the wrong length as a failed read.
- HistoryConvert.HistoryMessageConvertState.ConvertHistoryMessage: the opening text of notices, text clipping and the parsing of tool arguments are functions of the model, about which nothing is assumed.
- ExclusiveExport.SaveExclusiveExportPayloads: inodes are not reused, looking at existing files and removing them does not fail, nobody else uses staging names, writes a file made here or links it elsewhere, and the process does not stop midway; of a target at which others removed or replaced the file made here nothing is said.
- PromptTape.PromptHistoryTape.ReadOlder: the order of sessions is given; moving the current session to the front is not modelled.
- WatchPersistence.ConfigHoldsASnapshot: nobody but the hub writes the config during the run, and a persist function is present; without one a call returns success with its change unsaved.
- HeartbeatSchedule.PreviousScheduleAt: a zone with a fixed offset, no daylight saving, whole milliseconds, and none of the library's saturation at the ends of time; parsing of rules is given.
- HeartbeatRuns.SlotsRunInOrder: runs the interval decides are not for a slot and are left to HeartbeatRuns.OffSlotRunIff; ticks follow one another on a clock that does not go back, and merges do not overlap with a manual trigger; PutOffTickReopensTheSlot says what happens when they do.
- HistoryGrowth.GrowingPagesShow: planner displays stay as they were; one recorded meanwhile under the text of an older user row that had none left would be shown there instead.
- Metrics.CountsAreConserved: flushes follow one another (Metrics.OverlappingFlushLosesIff says what else happens), file writes succeed, and the process does not stop between two of them. A post that fails may have been delivered; what that posts twice is counted, not excluded.
- LifecycleLocks.RebuildIsDisciplined: early error exits release in the same order and are not separate scripts; startup fencing by generation numbers is not modelled.
- Checkpoints.CheckpointsForTab: the rows' prompt, time, coverage and conversation fields are copied and not modelled; a character stands for a byte.
- The creation time of rows, which the window form and the full form overlay on different conditions.
- Truncation of long fields to references, the reference format, and field extraction from a row; they act on one row at a time.
- Cursors and identifiers as base64, JSON or text; they are records here.
- Display index validation, cold reads of files, index repair and migration: the source with its turns, roles and reads is given, turns not decreasing.
- The older paging function in desktop/app.go, which does not prime planner state.
- Session rebinding, the runtime registry, and the bodies of controller builds.
- Bot sends, prompts awaiting an answer, and the notification queue of the bridge.
- Topics, tabs and prompts of a heartbeat run, and topics pending between runs.
- What a retry of a deferred rebuild does; it acts on the model only by clearing tabs of its work, any number of times, or scheduling.
- Bucket names of metrics, posting over the network, and the install id.
- The lexical form of numbered export names.
