# review-raven: verified model

A Dafny model of review-raven, the MCP server that watches Copilot reviews of GitHub pull requests, and proofs about it:

- **Watch manager.** Many watches, one worker each, three maps, a mutex and a `closed` flag, with the two SQLite tables
  behind it. `WatchCore.dfy` holds each critical section as a function on the manager's state; `WatchManager.dfy` holds the same
  sections as objects changed in place, every method proved equal to its section; `WatchWorker.dfy` and `WatchSystem.dfy`
  interleave the sections with every other step a goroutine can take, with refused writes and with restarts; and
  `WatchInvariant` to `WatchFaults` prove what holds in every run. `PollAnswers.dfy` and `CallAnswers.dfy` say, without naming the
  sections, what each poll and call means for the watches and its caller, and `ManagerRuns.dfy` that calls on the objects follow
  runs and answer so.
- **List.** The merge of memory with a limited row query, against the whole union.
- **Review status.** The paginated folds over GitHub's answers and `DeriveStatus`, against an automaton over the events of
  a pull request.
- **Requests.** The trigger row that makes an old review stale, and runs of requests and completions.
- **Decisions.** CI status, the review cycle, the bounded wait and the next action.

`dafny verify dfyconfig.toml` checks everything.

## How interleaving is modelled

An event of `WatchSystem.Step` is one atomic section: a call under the mutex, or one of the five stretches of a poll between
which other goroutines can run (read watch and client; fetch; read `trigger_log`; complete the trigger row; locked commit). What
GitHub and the database answer is chosen freely by the event: fetched data, any combination of the error properties that
`pollOnce` asks about, a panic, a failed read, a refused write. `hist`, `sent` and `lost` record commits, notifications and watches
whose last write failed; the program never reads them.

Assumptions: the clock does not run back; a restart happens at least one nanosecond after the last step before it; the k-th tick of
a ticker comes at least k poll intervals after its creation; there is one manager per opened database; a panic happens only in the
fetch; a request runs without another request of the same pull request in between.

Six properties that one might expect hold only under a condition. Each is stated with the exact condition and with an input or
run at which it fails:

- `updatedAt` does not go back (`WatchFaults.UpdatedAtGoesBackExactly`, `LateCommitRun`): a poll reads the clock before it takes
  the lock.
- Only an AUTH_EXPIRED watch has a hint (`WatchFaults.HintStraysExactly`, `WatchSteps.HintOutlivesReason`): a refused write rewrites
  the reason and leaves the hint.
- An ended watch has no active row, and a valid Start succeeds when the database takes its write
  (`WatchFaults.EndedRowActiveExactly`, `StartFailsExactly`, `BlockedRun`): a refused ending leaves the row active and blocks its
  key until a restart.
- List is the head of the whole union (`WatchListTheorems.ListIsUnionPrefixExactly`, `WatchListRuns.TiedRun`). A lost write matters to
  a client that asks for active watches only (`ListAgreesExactly`, `WatchListRuns.LostEndingListed`).
- A trigger entry agrees with the review cycle (`ReviewHistory.TriggerEntryAgrees`, `UnrecordedRequestCounterexample`): an old
  review ID overrides a newer request on GitHub.
- The open trigger row is the one that is read (`Request.OpenRowIsRead`, `UnsteadyCounterexample`): afterwards polls and watches
  read the finished row.

Time is in nanoseconds and unbounded; the tables keep whole seconds. Text is a sequence of characters, ordered character by
character where Go orders bytes, which is the same for UTF-8.

## Model

| member | source | states |
|---|---|---|
| WatchTheorems.ActiveIsLive | internal/watch/manager.go:233-363 | In every interleaving of starts, token swaps, split polls, cancels, panics, refused writes, Close and restarts, `activeByKey` is exactly the map from key to ID of the live watches (so at most one per key). |
| WatchTheorems.ClosedForever | internal/watch/manager.go:233-263 | After Close the active map stays empty for the rest of the process, whatever polls or starts are still under way. |
| WatchTheorems.EndedForever | internal/watch/manager.go:895-956 | An ended watch never changes again, however late a commit of its worker is, and a link to a trigger row is never replaced. |
| WatchTheorems.NoOrphans | internal/watch/manager.go:629-666 | Every watch has exactly one worker; a worker has returned, and a context is cancelled, only if the watch ended. |
| WatchTheorems.NeverStuck | internal/watch/manager.go:629-653 | A worker that has not returned can always move on, sooner or later; one that cannot belongs to an ended watch. |
| WatchTheorems.WorkersStop | internal/watch/manager.go:629-666 | From any reachable state on, a worker makes at most 8·ceil(maxWatchDuration / pollInterval) + 6 moves. |
| WatchTheorems.PollsAreBounded | internal/watch/manager.go:663-667 | `pollsDone` never exceeds ceil(maxWatchDuration / pollInterval), with late, buffered or dropped ticks. |
| WatchTheorems.TableFollowsMemory | internal/watch/manager.go:1023-1095 | A live watch has an active row under its own key; the row of a watch whose last write was taken is exactly that watch in whole seconds; a row is active exactly if its watch is live or ended with its last write refused. |
| WatchTheorems.NoFaultRun | internal/store/db.go:45-47 | When every write is taken, across restarts, the active rows are exactly the active map, and the unique index never rejects a valid Start on an open manager. |
| WatchTheorems.CachedLatestAgrees | internal/watch/manager.go:391-424 | Whenever `latestByKey` has a key, its ID is the row selected by updated_at, started_at, rowid, including second truncation, failed writes and rows of earlier processes. |
| WatchTheorems.RowReadsBack | internal/watch/manager.go:988-1021 | What is read from a watch's row is its snapshot cut to seconds and without the worker's fields, unless its last write was lost. |
| WatchTheorems.FinishedRowsStay | internal/store/db.go:446-472 | An inactive row is never written again, by any step or any number of restarts. |
| WatchTheorems.CrashRecovery | internal/store/db.go:162-165 | A crash after any event, then Open: no row is active, formerly active rows are well-shaped STALE rows, the others are untouched, and no later step or restart changes any of them. |
| WatchTheorems.ReachedShapes | internal/watch/manager.go:925-956 | Every reachable watch is well shaped: WATCHING iff live, FAILED iff a reason, STALE iff `staleAt`, ended iff `completedAt`, ended means no token and no client, AUTH_EXPIRED has a hint, COMPLETED and BLOCKED carry that review status. |
| WatchTheorems.FailuresAreCounted | internal/watch/manager.go:854-893 | The failure counter is the number of upstream failures since the last ok commit, token swap or start, and below the threshold while the watch is live. |
| WatchTheorems.NotificationsConserved | internal/watch/manager.go:781-814 | Over any run a watch is notified once per saved ok commit whose review status differs from the stored one, plus once at its end unless Close ended it, refused writes included. |
| WatchTheorems.UninterruptedPoll | internal/watch/manager.go:677-755 | A worker that nothing interrupts reaches the critical section that the pollOnce method runs, and changes nothing on the way: it ties the state machine to the imperative method. |
| WatchSafety.NextIDFresh | internal/watch/manager.go:958-961 | The next ID was never used by this process, nor by an earlier one on the same table. |
| WatchSafety.LateStepIsNothing | internal/watch/manager.go:900-903 | Every critical section of an ended watch changes nothing and stops its worker. |
| WatchSafety.LockedStepMoves | internal/watch/manager.go:710-814 | A poll's critical section keeps every invariant, counts at most this poll, and stops the worker exactly when the watch ended. |
| WatchSafety.WorkerMoveKeeps | internal/watch/manager.go:629-815 | Every worker step, at any phase and with any answer, keeps the invariant of the whole system and undoes nothing. |
| WatchSafety.StartKeeps | internal/watch/manager.go:273-363 | Start keeps the invariant, whether it reuses, creates or fails, and loses only a write the database refused. |
| WatchSafety.CancelKeeps | internal/watch/manager.go:501-622 | Both cancels keep the invariant. |
| WatchSafety.CloseKeeps | internal/watch/manager.go:233-263 | Close keeps the invariant in whatever order the active keys are visited. |
| WatchTheorems.RestartKeeps | internal/store/db.go:162-165 | A restart on the recovered table establishes the invariant again. |
| WatchTheorems.StepKeeps | internal/watch/manager.go:273-815 | Every event of the system keeps the invariant. |
| WatchSteps.UpstreamFailureSteps | internal/watch/manager.go:858-893 | An upstream failure escalates to AUTH_EXPIRED exactly on the threshold-th one since the last ok commit, token swap or start (and the write is taken); otherwise the watch stays live unless its write is refused. |
| WatchSteps.CommitOkSteps | internal/watch/manager.go:781-815 | An ok commit keeps the invariant; the worker stops exactly when the write was refused, and then the watch has ended. |
| WatchSteps.CommitDoneSteps | internal/watch/manager.go:748-779 | A finished review ends the watch COMPLETED or BLOCKED, and keeps the invariant. |
| WatchSteps.CommitLowBudgetSteps | internal/watch/manager.go:727-746 | A low budget ends the watch RATE_LIMITED, and keeps the invariant. |
| WatchSteps.CancelWatchSteps | internal/watch/manager.go:517-535 | A cancel of a live watch ends it CANCELLED and reports the trigger row it was linked to. |
| WatchSteps.MarkStaleSteps | internal/watch/manager.go:912-923 | A recovered panic ends the watch STALE. |
| WatchSections.FinishSteps | internal/watch/manager.go:931-956 | finishLocked keeps the invariant and ends the watch as asked, or degrades it when the write is refused. |
| WatchSections.DegradedShaped | internal/watch/manager.go:1068-1091 | A degraded watch is again well shaped. |
| WatchInvariant.LiveWriteIsAccepted | internal/store/db.go:316-357 | While a watch is live the unique index never refuses one of its writes. |
| WatchInvariant.UpsertRefusal | internal/store/db.go:316-357 | An upsert is refused exactly if it is active and an active row of another watch has its key. |
| WatchInvariant.UpsertKeepsKeyed | internal/store/db.go:316-357 | An upsert that is taken keeps IDs and active keys unique, touches no other row, and stores the entry in whole seconds under the row's first key and start time. |
| WatchSteps.HintOutlivesReason | internal/watch/manager.go:1068-1091 | When the write of an escalation is refused the reason becomes internal, but the hint stays. |
| WatchInvariant.CommitRewrites | internal/watch/manager.go:1050-1095 | A commit rewrites its own watch and row only, and fails only when the database does. |
| WatchLifecycle.ReuseSteps | internal/watch/manager.go:304-329 | Reusing a live watch keeps the invariant; a new token starts a fresh failure budget. |
| WatchLifecycle.StartNewSteps | internal/watch/manager.go:334-358 | A new watch keeps the invariant; Start fails exactly when the write is refused or another active row holds the key. |
| WatchLifecycle.StartBlockedByLostWatch | internal/store/db.go:45-47 | An active row holds a key without a live watch exactly if an ended watch of the key lost its last write. |
| WatchFaults.EndedRowActiveExactly | internal/watch/manager.go:1068-1095 | In every run an ended watch's row is active exactly if its last write was refused. |
| WatchFaults.StartFailsExactly | internal/store/db.go:45-47 | In every run, starting a key without a live watch on an open manager fails, although the database takes the write, exactly if an ended watch of the key lost its last write. |
| WatchFaults.LostKeyStaysBlocked | internal/watch/manager.go:297-363 | After such an ending no Start of that key succeeds for the rest of the process. |
| WatchFaults.BlockedRun | internal/watch/manager.go:501-535 | The run that shows it: a start, and a cancel whose write is refused. |
| WatchFaults.HintsAreAccounted | internal/watch/manager.go:931-956 | In every run a live watch has no hint, an AUTH_EXPIRED one has one, and any other has one exactly if it was degraded with it: reason internal, write refused, row still active. |
| WatchFaults.HintStraysExactly | internal/watch/manager.go:1068-1091 | An ending leaves a hint without AUTH_EXPIRED exactly if it was to be AUTH_EXPIRED and its write is refused. |
| WatchFaults.UpdatedAtGoesBackExactly | internal/watch/manager.go:677-681 | A step moves a watch's `updatedAt` back exactly if it commits a poll of a live watch with a clock reading older than the watch's last change. |
| WatchFaults.LateCommitRun | internal/watch/manager.go:304-329 | The run that shows it: fetch, then a Start with a new token at a later clock, then the commit of the fetch. |
| WatchLifecycle.CloseSteps | internal/watch/manager.go:233-263 | Close ends every active watch STALE and empties the active map. |
| WatchCore.NewConfig | internal/watch/manager.go:186-202 | Positive options are kept; the others become 90 seconds, two hours and 5 failures. |
| WatchCore.WatchIDInjective | internal/watch/manager.go:958-961 | IDs of different clock readings or sequence numbers differ. |
| WatchManager.Manager.constructor | internal/watch/manager.go:186-230 | A new manager is empty on the given table. |
| WatchManager.Manager.PersistLocked | internal/watch/manager.go:1023-1048 | Writes the entry of the watch; the row is untouched when the write is refused. |
| WatchManager.Manager.PersistOrDegradeLocked | internal/watch/manager.go:1050-1095 | Saves the watch or ends it, takes it out of the active map and cancels its context. |
| WatchManager.Manager.Commit | internal/watch/manager.go:1050-1095 | The object-level commit does to the whole state what CommitWatch does. |
| WatchManager.Manager.FinishLocked | internal/watch/manager.go:931-956 | The object-level ending does to the whole state what Finish does, notification included. |
| WatchManager.Manager.FinishState | internal/watch/manager.go:895-910 | Equals the critical section FinishState; nothing when the watch is missing or ended. |
| WatchManager.Manager.MarkStale | internal/watch/manager.go:912-923 | Equals the critical section MarkStale. |
| WatchManager.Manager.HandleUpstreamFailure | internal/watch/manager.go:858-893 | Equals the critical section HandleUpstreamFailure, state and stop flag. |
| WatchManager.Manager.CommitLowBudget | internal/watch/manager.go:727-746 | Equals the critical section CommitLowBudget. |
| WatchManager.Manager.CommitDone | internal/watch/manager.go:757-779 | Equals the critical section CommitDone. |
| WatchManager.Manager.CommitOk | internal/watch/manager.go:781-814 | Equals the critical section CommitOk, state and stop flag. |
| WatchManager.Manager.NextID | internal/watch/manager.go:958-961 | The new ID names no watch of this process, whatever the clock says. |
| WatchManager.Manager.ReuseLocked | internal/watch/manager.go:304-329 | Equals the critical section Reuse. |
| WatchManager.Manager.StartNewLocked | internal/watch/manager.go:334-363 | Equals the critical section StartNew, with a new object in the three maps. |
| WatchManager.Manager.StartLocked | internal/watch/manager.go:297-363 | Equals the critical section StartLocked. |
| WatchManager.Manager.Start | internal/watch/manager.go:273-363 | Refuses bad input, fails on an unreadable trigger_log, otherwise equals StartLocked with the latest trigger row. |
| CallAnswers.StartAnswers | internal/watch/manager.go:297-363 | In every state: a closed manager refuses; a live watch of the key is joined, with the new token, a fresh failure budget on a swap, and the trigger row linked once; otherwise a watch with an ID new to memory and table is added, field by field, exactly if the write is taken and no ended watch of the key lost its last write; no other watch changes. |
| WatchManager.Manager.CancelByID | internal/watch/manager.go:501-556 | The answer and the effect, case by case: a watch of another login is not found and nothing changes; the caller's live watch is ended, no other is, and the trigger row it was linked to is completed if the database takes the mark; an ended one is shown; an unknown ID is answered from the caller's own row only. |
| CallAnswers.CancelByIDChangesExactly | internal/watch/manager.go:501-535 | In every state of the system a cancel by ID changes a watch exactly if it has that ID, is live and belongs to the caller; then it ends, CANCELLED if the write is taken; otherwise the whole system is unchanged. |
| WatchManager.Manager.CancelLatest | internal/watch/manager.go:559-622 | State, answer and completed trigger row of a cancel by user and pull request; refused on missing input. |
| CallAnswers.CancelLatestChangesExactly | internal/watch/manager.go:559-598 | In every state a cancel by key changes a watch exactly if it has that key and is live; then it ends; without one nothing changes. |
| CallAnswers.CancelLatestMeans | internal/watch/manager.go:559-622 | The live watch of the key is ended, no other is, and its linked trigger row is completed; without one the answer is the ended watch of the key in memory or its latest row, marked as not cancelled. |
| WatchManager.Manager.CloseLocked | internal/watch/manager.go:233-263 | Equals CloseLocked for the order in which the map was visited, and visits every active key. |
| WatchManager.Manager.ReleaseContext | internal/watch/manager.go:265-268 | Cancels the context of one ended watch and changes nothing else. |
| WatchManager.Manager.GetByID | internal/watch/manager.go:366-388 | The snapshot with that ID: the watch in memory, else the row, if it can be read; none exactly if neither exists. |
| WatchManager.Manager.GetLatest | internal/watch/manager.go:391-424 | The cached latest watch, else the row the table selects. |
| CallAnswers.LatestMeans | internal/watch/manager.go:391-424 | In every state what is shown has the key; it is the live watch of the key if there is one, else a watch of it in memory if there is any, else the last updated row of the key, if it can be read; none exactly if there is none of these. |
| WatchManager.Manager.List | internal/watch/manager.go:427-498 | Every snapshot shown belongs to the login and meets each condition asked for; each watch in memory that meets them is shown, or the list is full with watches that precede it; the list is in order, within the limit, and the same whatever order the maps are visited in. |
| WatchManager.Manager.CommitData | internal/watch/manager.go:710-814 | The part of pollOnce after a successful fetch equals the critical section its phase names, and completes the trigger row it read exactly if that row is open, the budget is at least 10, the status derived with it is finished, and the database takes the mark. |
| WatchManager.Manager.CommitFailure | internal/watch/manager.go:682-708 | The part of pollOnce after a failed fetch, in the order of its tests. |
| WatchManager.Manager.PollOnce | internal/watch/manager.go:655-815 | A whole poll without interruption equals the critical section that the worker's phases lead to; trigger_log changes exactly if the poll gets to its data and they finish the open row it read, and then only that row is completed. |
| PollAnswers.PollAnswer | internal/watch/manager.go:655-815 | What a poll of a live watch does to it, told by the answers alone: overdue TIMEOUT; panic STALE; each kind of failed fetch in its order; an unreadable row or a refused mark FAILED/INTERNAL; a budget below 10 RATE_LIMITED with the reset time; a finished review COMPLETED or BLOCKED; else it stays watched with the new status, no failures and no error. A refused write ends it as INTERNAL. The worker stops exactly if the watch ended. |
| PollAnswers.PollOfEnded | internal/watch/manager.go:655-676 | A poll of an ended or unknown watch changes nothing and stops the worker. |
| PollAnswers.PollReadmits | internal/watch/manager.go:748-756 | Completing the open row it read, a poll admits the next request of the pull request exactly if that was its only open row. |
| CallAnswers.SectionChangesOne | internal/watch/manager.go:677-815 | A poll changes no watch but its own. |
| WatchManager.WatchState.End | internal/watch/manager.go:931-950 | The fields finishLocked sets. |
| WatchManager.WatchState.Degrade | internal/watch/manager.go:1068-1093 | The fields a refused write sets; reason rewritten, hint kept. |
| WatchManager.WatchState.Renew | internal/watch/manager.go:307-322 | A new token resets failure count, error and hint; a trigger row is linked once. |
| ManagerRuns.PollRun | internal/watch/manager.go:629-815 | One poll without interruption is a run of the system from a worker about to poll. |
| ManagerRuns.OpenFirst | internal/watch/manager.go:186-230 | A manager on a new database follows the empty run. |
| ManagerRuns.Reopen | internal/store/db.go:64-167 | Opening the tables again with a new manager takes the objects along a restart, after any calls. |
| ManagerRuns.TracksInv | internal/watch/manager.go:186-230 | A manager that follows a run satisfies the invariant, and with it every theorem about reached states. |
| ManagerRuns.Start | internal/watch/manager.go:273-363 | A call of Start takes the objects along a run, and answers as CallAnswers.StartMeans says with the latest trigger row of the pull request. |
| ManagerRuns.Poll | internal/watch/manager.go:655-815 | A whole poll takes the objects along a run, does to its watch what PollAnswers.PollMeans says and nothing to any other; it completes the open row it read exactly if the data of a live watch finish it and the mark is taken, and then the next request is admitted if that was the only open row. |
| ManagerRuns.CancelOneByID | internal/watch/manager.go:501-556 | A cancel by ID takes the objects along a run, and answers as the ownership table says. |
| ManagerRuns.CancelLatestOf | internal/watch/manager.go:559-622 | A cancel by pull request takes the objects along a run; only the live watch of that key is ended, and the answer shows it or the latest watch of the key. |
| ManagerRuns.Latest | internal/watch/manager.go:391-424 | GetLatest on objects that follow a run answers as CallAnswers.LatestAnswers says. |
| ManagerRuns.Close | internal/watch/manager.go:233-263 | Close takes the objects along a run, and leaves them closed with nothing active. |
| WatchListTheorems.ListAgreesExactly | internal/watch/manager.go:427-498 | In every state, lost writes or not, List is the first `limit` items of the full sorted union, memory shadowing rows, exactly if what only one of the candidates and the union has, has `limit` items before it that both have. |
| WatchListTheorems.ListIsUnionPrefixExactly | internal/watch/manager.go:427-498 | When no write is lost, or the client does not ask for active watches only, that is: every watch List does not see has `limit` watches before it that it sees. |
| WatchListTheorems.ListIsUnionPrefix | internal/store/db.go:390-442 | So it is whenever each row kept out that is not in memory, and ties with one let through on active flag, updated and started second, has the lesser ID; a row let through whose last write was lost counts as its watch in memory. |
| WatchListTheorems.ListAfterRestartExactly | internal/store/db.go:421-425 | With nothing in memory, as after a restart, it is exactly then. |
| WatchListTheorems.ReachedList | internal/watch/manager.go:427-498 | All four in every run. |
| WatchListRuns.TiedRun | internal/watch/manager.go:480-493 | A run after which they differ: refused starts, two starts and two cancels in one instant, and a restart. |
| WatchListRuns.LostEndingListed | internal/watch/manager.go:446-472 | A run with a refused ending, after which List shows the ended watch as active where the union has none. |
| WatchListRuns.TenthBelowNinth | internal/watch/manager.go:958-961 | The tenth ID of an instant sorts below the ninth, against their rowids. |
| WatchList.SnapshotOrder | internal/watch/manager.go:480-493 | The comparator is a strict order, and total on different watches. |
| WatchList.Selected | internal/store/db.go:390-419 | Exactly the rows of the login that meet each condition asked for, with their rowids. |
| WatchList.ListingAnswers | internal/watch/manager.go:427-498 | The listing holds only what was asked for, each entry a watch in memory or a row; a watch in memory that was asked for is in it, or it is full with watches that precede that one; it is in order. |
| WatchList.FetchedInOrder | internal/store/db.go:415-420 | The query returns live rows first, then the last updated, started and inserted. |
| WatchList.ListingOf | internal/watch/manager.go:476-498 | Collecting, sorting and cutting give the same list from any collection order. |
| Sorting.SortedUnique | internal/watch/manager.go:480-493 | The same elements have one sorted arrangement, so the sorting algorithm does not matter. |
| Store.LatestRow | internal/store/db.go:374-387 | The row that comes before every other row of its key, or none if there is none. |
| Store.LatestRowIsLast | internal/store/db.go:374-387 | It was updated last, then started last, then inserted last. |
| Store.LatestTrigger | internal/store/db.go:261-288 | The trigger row that is newer than every other of its pull request. |
| Store.LatestTriggerIsLast | internal/store/db.go:261-288 | It was requested last, then inserted last. |
| Store.RecoveryIsFinal | internal/store/db.go:446-472 | Recovery ends active rows STALE at this time, keeping what was known of them, leaves the others, keeps identity columns, and a second recovery changes nothing. |
| Store.CompletedOnce | internal/store/db.go:294-302 | Completing a row again, whatever was completed in between, changes nothing: the first completion time is kept. |
| Store.CompletedEndsWait | internal/store/db.go:294-313 | Completing an open row leaves a pull request pending exactly if another row of it is open. |
| Database.DB.constructor | internal/store/db.go:64-167 | Opening runs the recovery on the existing table. |
| Database.DB.UpsertReviewWatch | internal/store/db.go:316-357 | Inserts or rewrites by ID, keeps identity columns, and refuses a second active row of a key. |
| Database.DB.Insert | internal/store/db.go:214-223 | Appends an open row dated now. |
| Database.DB.InsertWithPrevReviewID | internal/store/db.go:248-257 | Appends an open row with explicit time and previous review ID. |
| Database.DB.UpdateCompletedAt | internal/store/db.go:294-302 | Completes the row, or changes nothing when the statement fails. |
| Database.DB.MarkActiveReviewWatchesStale | internal/store/db.go:446-472 | Recovers the table and counts the rows it ended. |
| Review.GetReviewData | internal/github/client.go:198-314 | Whatever the pages: an error exactly where a call that counts fails; otherwise the data summarise what was read, with the rate-limit short circuits. |
| Review.FoldReviews | internal/github/client.go:222-258 | The page fold keeps the first Copilot review with the latest submission time. |
| Review.FoldTimeline | internal/github/client.go:286-306 | The page fold keeps the latest review request of Copilot and the latest start of work. |
| ReviewHistory.StatusIsPhase | internal/github/client.go:334-380 | For every history with increasing times, cut into any pages, the derived status is the phase of the review-cycle automaton. |
| ReviewHistory.FetchedIsShown | internal/github/client.go:198-314 | What is fetched, in any pages and order, is the last review, request and start of work of the history. |
| ReviewHistory.TriggerEntryAgrees | internal/github/client.go:334-380 | For every history, the status derived with a trigger entry is the phase exactly if the entry's review ID equals the last review's when and only when that review does not answer the last request; an entry without an ID matters only if the timeline shows no request. |
| ReviewHistory.TriggerEntryWithoutTimeline | internal/github/client.go:337-369 | The same without the timeline, up to telling IN_PROGRESS from PENDING. |
| ReviewHistory.RecordedIDTells | internal/tools/request.go:107-119 | An entry recorded at a request is right until Copilot has reviewed and is asked again without a new entry, and exactly then wrong. |
| ReviewHistory.UnrecordedRequestCounterexample | internal/github/client.go:346-354 | The failing history: review 7, a request recorded with it, review 8, a request on GitHub; the status is COMPLETED where the phase is PENDING. |
| Request.RequestReview | internal/tools/request.go:35-131 | Each refusal exactly: bad input, an open row of the pull request, Copilot already among the reviewers; a row is recorded exactly when the request succeeds, and it is the one RowFor describes. |
| Request.AcceptedRow | internal/tools/request.go:103-128 | The recorded row is open; it holds the review's ID and is dated a second after the review exactly if that is later than every request on record, and is dated now without an ID otherwise. |
| Request.NewRowIsLatest | internal/tools/request.go:103-128 | The new row is the one GetLatest returns exactly if it records the review or is not dated before the last request. |
| Request.RecordedReviewIsStale | internal/tools/request.go:107-119 | After a request that recorded the existing review, a later check finds a finished review if and only if it sees one with another ID, whatever the timeline says. |
| Request.FallbackReviewIsStale | internal/tools/request.go:120-128 | After a request recorded at the current time, later checks read the new row or a last one dated ahead, and what they report of the old review is given exactly: by the ID if the row has one, else finished exactly if the timeline dates the last request no later than the review. |
| Request.AtMostOneOpen | internal/tools/request.go:51-62 | In every run of requests and completions a pull request has at most one open row, and completing it admits the next request. |
| Request.OpenRowIsRead | internal/store/db.go:261-288 | The open row is the one GetLatest returns exactly if no row of its pull request is dated later. |
| Request.SteadyRunsReadTheOpenRow | internal/tools/request.go:103-128 | So always, when request clocks do not run back and the review found is at least a second old; completing the row that was read then admits the next request. |
| Request.UnsteadyCounterexample | internal/tools/request.go:107-128 | Not otherwise: request within a second of the review, cancel, request again; GetLatest returns the finished row and completing what was read leaves the open one pending. |
| CheckRuns.GetCIStatus | internal/github/client.go:707-756 | Fails exactly on a missing head commit or a failed page; otherwise reports the runs kept from all pages. |
| CheckRuns.KeyInjective | internal/github/client.go:728 | Two runs share a key exactly if they have the same app and name, whatever the name contains. |
| CheckRuns.KeptAreLatest | internal/github/client.go:727-733 | For distinct IDs the run kept for a check is the one no run of the same app and name is later than. |
| CheckRuns.ReportOfSet | internal/github/client.go:707-756 | The report depends on the set of runs only: not on order, paging or repetition. |
| CheckRuns.OkMeansAllPass | internal/github/client.go:739-755 | OK exactly if every latest run is completed with success, skipped or neutral. |
| CheckRuns.NameCount | internal/github/client.go:739-754 | A name is listed once for each app whose latest run of that name is pending (or failed). |
| CheckRuns.ReportedNames | internal/github/client.go:739-754 | A name is listed as pending exactly if a latest run of it is not completed, and as failed exactly if one is completed with a conclusion other than success, skipped or neutral. |
| Cycle.ComputeAllReplied | internal/tools/cycle.go:83-103 | All replied exactly if every open thread has two distinct non-blank authors; the others are listed in order. |
| Cycle.FindLatestCommentAt | internal/tools/cycle.go:419-436 | The greatest readable time of a Copilot comment, or none if there is none. |
| Cycle.CycleStatus | internal/tools/cycle.go:117-408 | Errors in their order, otherwise the right action, in which the elapsed time does not occur. |
| Cycle.DecisionIsRight | internal/tools/cycle.go:293-331 | For every elapsed time and threshold the switch takes the right action. |
| Cycle.ReadyExactlyWhen | internal/tools/cycle.go:293-343 | READY_TO_MERGE iff a finished review, no open thread, CI OK, no re-review and cycles remain; REQUEST_REREVIEW iff the same, CI aside, with a re-review needed; REPLY_RESOLVE iff a finished review with open threads; ESCALATE iff no cycles remain; TERMINATE iff ready or escalated; a re-review is needed iff the fix is logic or a spec change. |
| Cycle.FailsExactlyWhen | internal/tools/cycle.go:117-292 | Each refusal and failure exactly, over the input and the answers. |
| Cycle.RepliedMeans | internal/tools/cycle.go:83-103 | A thread counts as replied exactly if it is resolved or has comments of two different authors whose names are not blank. |
| Cycle.UnrepliedMeans | internal/tools/cycle.go:83-103 | Exactly the threads not replied to are listed. |
| Cycle.UnresolvedCount | internal/tools/cycle.go:229-234 | The number of open threads is the number of positions that hold one. |
| Cycle.NoOpenThreadMeansAllReplied | internal/tools/cycle.go:313-321 | The re-review guard's else branch is unreachable. |
| Wait.WaitForReview | internal/tools/wait.go:42-197 | A row is completed exactly if the wait ends with a finished review whose row has no completion time, and it is that row; the result is told by the first decisive poll alone; total waiting is at most 30 minutes. |
| Wait.FinishedReviewIsTold | internal/tools/wait.go:145-183 | The first finished review ends the wait and is what the result shows, after unfinished polls; if its open row cannot be completed the call fails instead. |
| Wait.TimeoutIsTold | internal/tools/wait.go:186-196 | Without a finished review the wait times out after its last poll with what that poll saw, or is reported cancelled if the context is done by then. |
| Wait.OtherEndIsTold | internal/tools/wait.go:94-150 | What else ends it: a context done between polls or in a call, a failed call, a budget below 10, each with what the poll before saw. |
| Wait.ValidWaitMeans | internal/tools/wait.go:44-74 | The inputs that are accepted, with their defaults and bounds as numbers. |
| NextAction.ActionByIDFits | internal/tools/watch.go:386-410 | In every run, across restarts and lost writes, for whatever GetByID returns from memory or a row: POLL_AFTER exactly while it is watched, re-authentication exactly on AUTH_EXPIRED, checking exactly on another failure, READ_REVIEW_THREADS exactly on COMPLETED or BLOCKED, START_NEW_WATCH exactly on RATE_LIMITED, CANCELLED, STALE or TIMEOUT; a wait exactly on a watched or a RATE_LIMITED one, the least that reaches the next poll or the reset. |
| NextAction.RecommendFits | internal/tools/watch.go:386-446 | The same for every snapshot whose status and reason fit together. |
| NextAction.ActionForLatestFits | internal/tools/watch.go:386-410 | The same for whatever GetLatest returns. |
| NextAction.ListedActionFits | internal/tools/watch.go:386-410 | The same for everything List can return. |
| NextAction.RowActionFits | internal/watch/manager.go:988-1021 | The same for every row, of this process or an earlier one. |
| NextAction.PollWaitIsLeast | internal/tools/watch.go:412-424 | The recommended wait reaches the next poll, and no shorter one of at least a second does. |
| NextAction.ResetWaitIsLeast | internal/tools/watch.go:426-435 | The same for the rate-limit reset. |
| NextAction.CeilIsLeast | internal/tools/watch.go:437-446 | The least number of seconds, at least one, that covers the duration. |
| NextAction.ParsesExactly | internal/tools/watch.go:498-508 | An ID is parsed exactly from its own URI, if it is not empty and has no separator. |
| NextAction.MintedIDParses | internal/watch/manager.go:1178-1180 | Every ID the manager mints is read back from its resource URI. |

## Left out

- Cancelling contexts: the parent context and the order of the cancel calls after Close; any order is allowed.
- A manager without a database, and one without a notification callback.
- Reads of `trigger_log` by a poll in `WatchSystem`: the answers are arbitrary, which allows more runs than the table would.
- The second clock reading inside `nextID`: the ID carries the reading that Start takes just before.
- Message texts: the words of `lastError` and of recovery hints are shortened and carry no counts; whether they are set is modelled.
- `InsertWithTime`, which no modelled handler calls, and `GetStatus`-style read-only handlers.
- Overlapping runs of the request handler: its check and its insert are one step.
- Wait.WaitForReview: other handlers do not run between its polls; each poll's answers are arbitrary instead.
- The notes of the cycle status, and its elapsed minutes beyond Go's largest duration (about 292 years).
- HTTP, GraphQL, JSON, OAuth, SQL text, column migrations, the authentication middleware and server set-up: library behaviour or plumbing.
- The tables of error classification: only the five properties that `pollOnce` asks about are kept.
- Thread tools, diagnostics and the legacy handshake: thin wrappers over GitHub calls.
- Watch status texts that this program never writes to its table.
