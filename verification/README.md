# Review Raven: a verified model

Review Raven watches pull requests for Copilot reviews, reads their comments only after checking who wrote them,
and writes back at most once per request. This project models three linked parts of it and proves what holds on
every run, for every answer GitHub, the database or the clock may give.

**Review watches** (`Watch*.dfy`, `ReviewStatuses.dfy`, `ReviewFetch.dfy`). The manager keeps watches by ID, an index
of active watches and an index of the latest one per user and pull request, and mirrors them in a table with a partial
unique index. `WatchSteps` gives every lock section as a function of the state, the times it read and whether its upsert
failed. `WatchManager` carries the sections out in place on objects and maps, and each method is proved to do exactly
what its function says. `WatchInvariant` and `WatchSections` prove the invariant every section keeps; `WatchRuns`
interleaves the sections of starts, cancellations, polling workers, closing, panics and restarts in any order;
`WatchTheorems`, `WatchAccounts`, `WatchSaves` and `WatchCauses` prove what holds over whole runs; `WatchStarts`,
`WatchOwners` and `WatchRows` say what starts, cancellations and restarts come to; `WatchRequests` joins the watches with
runs of the request log.

**The verified reader** (`TrustedAuthors.dfy`, `Snapshots.dfy`, `CommentPages*.dfy`, `Reader*.dfy`). A snapshot is
read page by page, its authors are checked without any text, and the text is read and returned only when a sorted
fingerprint has not changed. GitHub is a `World`: an arbitrary function from the history of calls to the next answer,
so comments and commits may change at any moment. SHA-256 is one of the World's functions and nothing is assumed of it.
`ReaderPages` puts the reader over the pages.

**Requests, replies, issues and descriptions** (`TriggerLog.dfy`, `Request*.dfy`, `CheckRuns.dfy`, `FollowUp*.dfy`,
`IssueGuarantees.dfy`, `Descriptions.dfy`). Remote effects are a log of calls, so "at most one write", "checked right
before the write" and "read back after it" are statements about that log, on every path. `FollowUpRepeats` goes from one
call to sessions of calls, and `FollowUpExample` gives a GitHub on which its hypotheses hold and the tool succeeds.

Where a promise fails, the exact condition is proved beside a concrete failure:

- After a request, the review that was already there is not taken for the new one, unless no review ID was recorded and
  either the timeline shows a request no later than that review, or the fetch before the request was too short of rate
  limit to list it and the review is of the running second or later (`Requests.OldReviewCountsIff`, and over whole runs
  `RequestRuns.OldReviewCountsInRunsIff`). Both cases happen: `Requests.OldTimelineTakesOldReviewForNew`,
  `Requests.LowRateTakesOldReviewForNew`.
- A recorded request is the row a later lookup finds if and only if it carries the previous review's ID or the
  database's clock has not fallen behind the stored rows (`Requests.RecordedRowIsLatestIff`). Otherwise it is never
  found and never completed, and blocks every further request for the pull request
  (`Requests.ClockBehindHidesRow`, `RequestRuns.HiddenRowBlocksForever`).
- A new watch for a key without a live one is refused if and only if an earlier watch of the key could not be saved
  when it ended (`WatchTheorems.StartIsRefusedIff`), and then until the process restarts
  (`WatchTheorems.UnsavedEndBlocksTheKey`); `WatchTheorems.UnsavedEndHappens` is such a run.
- A status that says the review is done is turned back if and only if no previous review's ID was recorded and a later
  request shows on the timeline (`ReviewFetch.DecisiveTurnsBackIff`).
- `Normalize` is idempotent exactly on logins without a doubled suffix (`TrustedAuthors.NormalizeTwice`).
- The fingerprint compares refs and lines while fields are single lines (`Snapshots.FingerprintIsLines`), and so
  comments, authors and edit times when they hold no `|` either (`Snapshots.FingerprintMeaning`); with one inside a
  field, snapshots with different authors have the same fingerprint (`Snapshots.SeparatorsCollide`).

`dafny verify dfyconfig.toml` checks the whole project.

## Model

| member | source | states |
|---|---|---|
| WatchInvariant.RecordKeepsInv | internal/watch/manager.go:1050-1095 | Putting any sound rewrite of a live watch in memory and saving it, or degrading it when saving fails, keeps the index, life-cycle, memory/table, row-order, latest and ID invariants together |
| WatchInvariant.SavingSucceeds | internal/store/db.go:316-357 | Saving a live watch never violates the one-active-row index and rewrites just that watch's row |
| WatchInvariant.OrderNamesTheLast | internal/store/db.go:374-387 | ORDER BY updated_at, started_at, rowid names the row inserted last for the key, and no row of the key started later |
| WatchSections.FinishStateKeepsInv | internal/watch/manager.go:895-910 | Ending a watch keeps the whole invariant, whether or not its upsert fails and whatever happened since the poll read its clock |
| WatchSections.MarkStaleKeepsInv | internal/watch/manager.go:912-923 | So does marking the watch of a panicked worker stale |
| WatchSections.HandleUpstreamFailureKeepsInv | internal/watch/manager.go:858-893 | Counting an upstream failure, and escalating at the threshold, keeps the invariant |
| WatchSections.EndPollKeepsInv | internal/watch/manager.go:682-814 | Every outcome of a poll, recorded under the lock, keeps the invariant |
| WatchSections.LaunchBlocked | internal/watch/manager.go:334-358 | With no live watch of the key, the insert of a new one fails exactly when a row of the key was left active; otherwise it appends one row under an unused ID |
| WatchSections.StartKeepsInv | internal/watch/manager.go:273-363 | Start keeps the invariant on all paths: invalid input, closed, reuse with and without a failed save, launch refused or published |
| WatchSections.CancelLatestKeepsInv | internal/watch/manager.go:559-605 | Cancelling by user and pull request keeps the invariant |
| WatchSections.CloseKeepsInv | internal/watch/manager.go:233-270 | Closing, with any set of failing upserts, leaves no live watch and keeps the invariant |
| WatchSections.ReopenKeepsInv | internal/store/db.go:444-462 | A restart marks every active row stale and re-establishes the invariant with empty memory |
| WatchClosing.ClosingStep | internal/watch/manager.go:242-263 | Ending one more watch after any set already ended is one step of the same closing, and keeps the invariant |
| WatchClosing.ClosingEnds | internal/watch/manager.go:242-263 | When the active index is empty the result is independent of the order in which the map was visited |
| WatchRuns.StepKeepsInv | internal/watch/manager.go:629-815 | Every event of every interleaving keeps the manager's invariant and that of its workers |
| WatchTheorems.RunKeepsInv | internal/watch/manager.go:297-362 | Hence every state of every run satisfies it |
| WatchTheorems.ActiveIndexIsTheLiveWatches | internal/watch/manager.go:297-362 | A key maps to an ID in the active index iff that ID's watch is live with that key; at most one live watch per key; a live watch is its key's latest |
| WatchTheorems.MemoryAgreesWithTable | internal/watch/manager.go:1023-1095 | Every watch has a row with its ID and key; a live one's is active; an ended one's is active iff its last upsert failed; a saved one's tells status, review status, reason, request, error and hint as the watch does, and its times in whole seconds |
| WatchTheorems.StartIsRefusedIff | internal/watch/manager.go:352-355 | Without a live watch of the key, Start's insert is refused iff some watch of the key could not be saved when it ended |
| WatchTheorems.UnsavedEndBlocksTheKey | internal/watch/manager.go:949-950 | Once an ended watch could not be saved, every later Start of its key fails until the process restarts |
| WatchTheorems.UnsavedEndHappens | internal/watch/manager.go:501-556 | A run in which this happens, for every valid input: a watch starts, its cancellation cannot be saved, and the next Start of the key is refused by a working database |
| WatchTheorems.LatestRowIsTheLastStarted | internal/watch/manager.go:391-424 | In every reachable state, despite truncation to seconds, failed upserts and restarts, the table's latest row is the last started watch, the one the latest index names |
| WatchRows.EndedRowIsFrozen | internal/store/db.go:316-357 | A row that is no longer active is never written again, by this process or after restarts |
| WatchRows.RestartLeaves | internal/store/db.go:444-462 | A restart leaves inactive rows alone and makes each active one stale at that time, keeping earlier times and errors and every other field |
| WatchRows.ReviewSurvives | internal/watch/manager.go:748-773 | Once a watch shows COMPLETED or BLOCKED, its row tells so in every later state, after restarts too |
| WatchStarts.StartMeans | internal/watch/manager.go:273-363 | Every outcome of Start field by field: what input is refused, which live watch is renewed with which credentials, request and failure budget, what a fresh watch and its row show, and what a failed save leaves |
| WatchStarts.LinkedRequest | internal/watch/manager.go:764-790 | A watch is linked to at most one request: the one a Start named, or else the one its first recorded poll had looked up |
| WatchOwners.OnlyTheOwnerCancels | internal/watch/manager.go:501-556 | Cancelling by ID changes only the named watch and its row, and only for its owner; all that the answer shows is the caller's; a caller the ID does not belong to gets "not found" and nothing changes |
| WatchOwners.OnlyTheKeyIsCancelled | internal/watch/manager.go:559-605 | Cancelling by user and pull request changes only the live watch of that key and its active row, and answers with a watch of that key |
| WatchOwners.CloseMeans | internal/watch/manager.go:233-270 | Closing ends every live watch as stale at that time, leaves all other watches and ended rows as they were, and notifies nobody |
| WatchOwners.ClosedStaysClosed | internal/watch/manager.go:273-300 | A closed manager has no live watch and stays closed until a restart |
| WatchTheorems.EndedWatchIsFrozen | internal/watch/manager.go:858-956 | An ended watch shows the same in every later state of the process |
| WatchTheorems.ShownStateIsConsistent | internal/watch/manager.go:931-956 | Ended, not WATCHING and completed coincide; FAILED has a reason, STALE a time, expired credentials a hint; an ended watch holds no token, client or worker, degraded ends included |
| WatchTheorems.StoppedWorkerLeavesNoLiveWatch | internal/watch/manager.go:629-653 | A worker that stops leaves its watch ended |
| WatchAccounts.CounterIsFailuresInARow | internal/watch/manager.go:306-320 | The stored counter is always the number of handled upstream failures since the last undecided success or token change, and below the threshold while the watch lives |
| WatchAccounts.EscalatesAtTheThreshold | internal/watch/manager.go:865-875 | Handling a failure escalates to FAILED with expired credentials exactly at the threshold-th in a row |
| WatchAccounts.NotificationsBalance | internal/watch/manager.go:781-814 | Over any run, notifications for a watch equal its review-status changes while live plus one for an end other than Close, degraded ends included |
| WatchAccounts.EndsOnce | internal/watch/manager.go:899-902 | A watch ends at most once, and exactly when it is shown as ended |
| WatchAccounts.FetchIsInTime | internal/watch/manager.go:655-674 | A fetch begins only for a live watch with a client, within the maximal duration of its start |
| WatchAccounts.FetchesAreInTime | internal/watch/manager.go:662-666 | Every fetch of a watch begins within the maximal duration of its start |
| WatchAccounts.FetchesAreBounded | internal/watch/manager.go:655-680 | When polls begin at least d apart, a watch makes at most maxWatchDuration / d fetches, rounded up |
| WatchAccounts.IdsNameOneWatch | internal/watch/manager.go:958-961 | In every later state an ID names the same watch, with its key and start time, or a restart forgot it and the ID is from before the process; an ID present later is never another watch |
| WatchCauses.EveryEndHasItsCause | internal/watch/manager.go:682-814 | Every ended watch was ended by one step and shows that step's status, reason, time, last error and hint for good: CANCELLED, STALE, TIMEOUT, or what its last poll brought back; an end that could not be saved shows an internal failure, or STALE, and says that saving failed |
| WatchCauses.CompletedMeansReviewFound | internal/watch/manager.go:748-773 | COMPLETED or BLOCKED is shown only after a poll, whose fetch began within the maximal duration, found a review that counts for the recorded request by ID or by time, and the saved row's own status is BLOCKED iff that review requests changes, else COMPLETED |
| WatchSaves.ReviewIsSaved | internal/watch/manager.go:1050-1095 | In every reachable state a watch whose last upsert failed is watching, FAILED or STALE, so a review is never shown unsaved |
| WatchCauses.ShownCounts | internal/watch/manager.go:925-929 | Over any run the shown poll count and poll time are those of the polls that came back while the watch lived, and the shown review status is that of the last poll that derived one |
| WatchStore.UpsertKeepsConstraints | internal/store/db.go:316-357 | An upsert that is allowed keeps the primary key and the one-active-row-per-key index |
| WatchStore.ReviewWatchTable.UpsertReviewWatch | internal/store/db.go:316-357 | Inserts, or rewrites all but key and start time, or fails on a database fault or a second active row of the key and changes nothing |
| WatchStore.ReviewWatchTable.GetLatestReviewWatch | internal/store/db.go:374-387 | Finds the latest row of the key in the stated order, or none iff the key has no row |
| WatchStore.ReviewWatchTable.MarkActiveReviewWatchesStale | internal/store/db.go:446-461 | Every active row, and no other, becomes stale; earlier times and messages are kept |
| WatchManager.Manager.Start | internal/watch/manager.go:273-363 | The objects and maps after Start are those of the step function, with the same result; the invariant holds again |
| WatchManager.Manager.Launch | internal/watch/manager.go:334-362 | A watch is published in the three maps only once its row is in the table |
| WatchManager.Manager.Reuse | internal/watch/manager.go:304-330 | A reused watch takes a new token and a first trigger ID, starts a fresh failure budget, and lives on when saving fails |
| WatchManager.Manager.CancelByID | internal/watch/manager.go:501-556 | Cancels only the caller's live watch, notifies once, and otherwise answers from memory or table; every watch or row in the answer has the caller's login; an ID that belongs to another login is not found and nothing changes |
| WatchManager.Manager.CancelLatest | internal/watch/manager.go:559-622 | Cancels the active watch of the key, or answers with the latest in memory or in the table |
| WatchManager.Manager.GetLatest | internal/watch/manager.go:391-424 | Answers with the watch the latest index names, live iff its key is active, whose row is the one the table would name; or else with the table's latest row, or none iff the key has no row |
| WatchManager.Manager.Close | internal/watch/manager.go:233-270 | The loop over the active index ends every live watch as the step function says, in whatever order, and notifies nobody |
| WatchManager.Manager.BeginPoll | internal/watch/manager.go:655-674 | Looks at the watch, then the deadline, then the client |
| WatchManager.Manager.EndPoll | internal/watch/manager.go:682-814 | Records each outcome of a fetch as the step function says, with its stop flag and notifications |
| WatchManager.Manager.RecordReview | internal/watch/manager.go:720-814 | The rate limit is looked at before the review; a decisive review whose request could not be marked finished ends the watch FAILED, any other ends it COMPLETED or BLOCKED, and an undecided one keeps it watching |
| WatchRequests.ReadReview | internal/watch/manager.go:710-755 | Before the lock the poll looks up the latest request of the pull request and marks it finished exactly when the rate limit allows, the review is decisive and the request is not finished yet; nothing else in the log changes |
| WatchRequests.EndedReviewLeavesNoRequest | internal/watch/manager.go:748-773 | In every run of watches and request log together, a watch shown COMPLETED or BLOCKED has its request marked finished for good; while the clock has kept up with the log, no request older than that poll is left pending |
| WatchManager.Manager.HandleUpstreamFailure | internal/watch/manager.go:858-893 | Counts, escalates or keeps watching; a failed save ends the watch and notifies |
| WatchManager.Manager.FinishState | internal/watch/manager.go:895-910 | Ends the watch once, and does nothing to one that has ended |
| WatchManager.Manager.FinishLocked | internal/watch/manager.go:931-956 | Removes exactly the watch's own index entry, saves or degrades, and notifies once |
| WatchManager.Manager.PersistOrDegradeLocked | internal/watch/manager.go:1050-1095 | Saves the watch, or ends it in memory with the intended status STALE kept and any other turned to FAILED |
| WatchManager.Manager.MarkStale | internal/watch/manager.go:912-923 | A panicked worker's watch becomes STALE unless it has ended |
| WatchManager.Restart | internal/store/db.go:162-164 | Opening the table and building a manager on it gives the restart step |
| ReviewFetch.GetReviewData | internal/github/client.go:198-314 | The loops over the pages leave the first review submitted last of those listed under one of Copilot's four logins, and the last request and start of the timeline; a rate limit below 10 cuts the fetch short before the reviews or before the timeline; fails iff the requested logins or, with enough rate limit, the reviews do |
| ReviewFetch.LatestMeaning | internal/github/client.go:227-256 | The review kept is none iff there is none; none is later than it, and those listed before it are earlier |
| ReviewFetch.StatusMeans | internal/github/client.go:334-380 | From a full fetch the status is done iff the latest review answers the request, by ID, or by being no earlier than every request to Copilot on the timeline, blocked iff it asks for changes; otherwise not requested, in progress or pending by whether work began after the last request |
| ReviewFetch.DecisiveTurnsBackIff | internal/github/client.go:334-380 | As reviews and timeline grow, a status that says the review is done is turned back iff no previous review's ID was recorded and the timeline comes to show a request made after the latest review; with an ID recorded, never |
| TrustedAuthors.NormalizeLogin | internal/trustedauthors/trustedauthors.go:26-34 | The in-place loop lowers ASCII letters and the suffix is removed once |
| TrustedAuthors.NormalizeSpells | internal/trustedauthors/trustedauthors.go:21-34 | The normal form is the login with letters in lower case and one final "[bot]", in any case, left out |
| TrustedAuthors.BotSpellingsAgree | internal/trustedauthors/trustedauthors.go:5-7 | The REST and GraphQL spellings of an App compare equal unless the name itself ends in the suffix |
| TrustedAuthors.NormalizeTwice | internal/trustedauthors/trustedauthors.go:23-25 | A second normalization changes the login exactly when the suffix is doubled |
| TrustedAuthors.Parse | internal/trustedauthors/trustedauthors.go:41-60 | The loop with its seen-map computes the parsed list or the startup error |
| TrustedAuthors.ParseMeaning | internal/trustedauthors/trustedauthors.go:36-60 | Fails iff some nonblank part, trimmed and normalized, is not made of letters, digits and inner hyphens; otherwise lists exactly those parts once each, in order of first appearance, all fixpoints of Normalize |
| TrustedAuthors.ParseRoundTrip | internal/trustedauthors/trustedauthors.go:41-60 | Parsing the comma-joined output returns the same list |
| Snapshots.CollectComments | internal/reader/reader.go:276-290 | Thread comments with their thread, then review bodies, then issue comments, in order |
| Snapshots.CollectedAreHeld | internal/reader/reader.go:276-290 | What is collected is exactly every comment of every thread under its ID, every review body and every issue comment |
| Snapshots.FingerprintMeaning | internal/reader/reader.go:352-360 | Equal fingerprints iff equal refs and equal multisets of kind, ID, thread, author, type and edit time, when no field holds a separator |
| Snapshots.EqualFingerprintsMatch | internal/reader/reader.go:352-360 | Equal fingerprints without separators mean the same refs and, for each comment of either snapshot, one in the same part of the other with the same thread, kind, ID, author, type and edit time |
| Snapshots.FingerprintForgetsTheRest | internal/reader/reader.go:352-360 | Snapshots that differ only in texts, URLs, creation times, review states and thread details have the same fingerprint |
| Snapshots.FingerprintIsLines | internal/reader/reader.go:352-360 | While fields are single lines, equal fingerprints iff equal refs and equal multisets of lines |
| Snapshots.SeparatorsCollide | internal/reader/reader.go:356 | Any snapshot has two extensions by one issue comment with equal fingerprints and different authors, a separator being inside the author or the type |
| CommentPages.ReadThread | internal/github/comments.go:239-278 | A thread's comments are its first page and every continuation page, in order, or the first fault met |
| CommentPages.ReadThreads | internal/github/comments.go:160-185 | The thread loop returns the threads of the pages walked and the refs the first page pinned, or the first fault met |
| CommentPages.ReadReviews | internal/github/comments.go:187-210 | The same for review bodies under the pinned refs |
| CommentPages.ReadIssueComments | internal/github/comments.go:212-233 | The same for issue comments |
| CommentPages.CommentSnapshot | internal/github/comments.go:125-235 | The snapshot assembled from the three walks, or the error of the first that fails |
| CommentPages.SetRefs | internal/github/comments.go:141-158 | Accepts exactly a base branch that is a branch under its own name, pins its tip as the policy commit, and says "moved" exactly when head, base, branch name or tip differ from the pinned ones |
| CommentPagesGuarantees.EveryPageShowsTheSameRefs | internal/github/comments.go:141-158 | On success every page visited reported the head, base and branch of the snapshot, and the tip of the base branch as its policy commit, whatever the server did in between |
| CommentPagesGuarantees.RefusalsMean | internal/github/comments.go:141-235 | A failed read says "moved" iff the pins differed on the way, "no policy ref" iff a base was no branch, and failed otherwise |
| CommentPagesGuarantees.SnapshotShowsItsNodes | internal/github/comments.go:291-308 | The snapshot shows every node on the pages visited, in order, each field as the server gave it |
| CommentPagesGuarantees.ReadFollowsTheCursors | internal/github/comments.go:177-184 | Each page is the answer to the cursor its predecessor ended with, from the first page to the last, and each thread is complete |
| CommentPagesGuarantees.PageBoundariesDoNotMatter | internal/github/comments.go:125-289 | For fixed contents, however the server cuts pages and continuation pages, a successful read is all of it in order |
| CommentPagesGuarantees.TextExactlyWhenAskedFor | internal/github/comments.go:291-308 | A comment carries text iff the read asked for bodies |
| CommentPagesGuarantees.AssembledIsClean | internal/github/comments.go:291-308 | IDs are written in digits, so the fingerprint of an assembled snapshot is exact once refs are single lines and logins, types, thread IDs and times hold no separator |
| CommentPagesGuarantees.SteadyRefsNeverMove | internal/github/comments.go:141-158 | While every page reports the same usable refs a read never gives up on them |
| Reader.ValidateIDs | internal/reader/reader.go:292-305 | Accepts exactly snapshots whose comments have IDs, unique per kind |
| Reader.CheckAuthors | internal/reader/reader.go:310-338 | Lists unknown authors, then untrusted ones, in order; unknown authors decide the error |
| Reader.VerdictMeaning | internal/reader/reader.go:307-309 | The check passes iff every comment has a known, allowed author |
| Reader.RequireBodies | internal/reader/reader.go:340-347 | Accepts exactly snapshots with every text present |
| Reader.Once | internal/reader/reader.go:188-256 | One pass makes its calls in order and decides as the reference pass does |
| Reader.Read | internal/reader/reader.go:162-185 | The attempt loop against a World that may change at any time |
| ReaderGuarantees.CheckCarriesOver | internal/reader/reader.go:349-351 | The author check and ID uniqueness carry over from the checked snapshot to any with the same keys |
| ReaderGuarantees.ReadReturnsOnlyTrustedComments | internal/reader/reader.go:221-256 | Every comment returned, from the second fetch, was in the checked first fetch with the same kind, ID, author and edit time, and none of those is missing; it has a known author in the server list or the project list at the returned policy commit, a unique ID, and its text if asked for; the refs are the same |
| ReaderGuarantees.ErrorsTellWhy | internal/reader/reader.go:188-256 | Every error is about the last call: a failed fetch or allowlist, refs that are no branch, missing or repeated IDs, missing texts, or exactly the comments without an allowed author, unnamed ones first |
| ReaderGuarantees.ReadEndsWithItsFetch | internal/reader/reader.go:221-256 | What a successful read returns is what its last call fetched, under the hash of its fingerprint |
| ReaderPages.SnapshotIsClean | internal/github/comments.go:291-308 | When no answer of the server holds a separator, the snapshot assembled from its pages has an exact fingerprint |
| ReaderPages.PagesReturnOnlyTrustedComments | internal/reader/reader.go:221-256 | Over page-by-page fetches from such a server: every node on the pages of the last fetch has an ID and an allowed author, all those pages showed the same refs, the allowlist was read at the branch tip they showed, and each comment was unedited in the same part of the checked fetch |
| ReaderGuarantees.BodiesOnlyAfterTheCheck | internal/reader/reader.go:188-256 | At most nine calls and no write; text is requested only by a body read, right after a metadata fetch and allowlist whose check passed; an empty server list makes no call |
| ReaderGuarantees.ReadStopsAtTheFirstStablePass | internal/reader/reader.go:170-184 | Stops at the first pass that is not stale; reports a changed snapshot iff three passes were stale |
| CheckRuns.ListCheckRunsForSHA | internal/github/client.go:1011-1059 | One run per app and name, the newest, strictly sorted, with the counts of all runs and pages; fails iff a page does |
| CheckRuns.PagesFollow | internal/github/client.go:1019-1058 | The pages walked follow the page numbers from the first to the one that names no next page |
| CheckRuns.LatestListIsDetermined | internal/github/client.go:1007-1010 | The list depends only on which runs were listed, when IDs are unique |
| CheckRuns.PagingDoesNotMatter | internal/github/client.go:1019-1058 | Two listings of the same runs agree whatever their order, pages and map iteration |
| CheckRuns.GetCIStatus | internal/github/client.go:914-946 | OK iff the newest run of every check is completed with success, skipped or neutral; the pending and failed names are those of the newest runs that are not completed, or completed otherwise |
| CheckRuns.VerdictMeaning | internal/github/client.go:929-945 | The pending and failed names, sorted, are those of the newest runs that are not completed or did not pass |
| Sorting.StringLeMeans | internal/github/client.go:943-944 | Strings are sorted lexicographically: a prefix first, otherwise by the first difference |
| TriggerLog.Table.GetLatest | internal/store/db.go:261-289 | The row of the pull request with the greatest time and then ID, or none iff there is none |
| TriggerLog.Table.UpdateCompletedAt | internal/store/db.go:291-301 | Completes the row once and keeps an earlier completion time |
| TriggerLog.Table.HasPending | internal/store/db.go:304-313 | True iff some row of the pull request is unfinished |
| TriggerLog.NewRowIsLatestIff | internal/store/db.go:261-268 | A new row is the latest iff no other of its pull request was requested later |
| Requests.Request | internal/tools/request.go:39-138 | Each guard in order decides the result; the request is sent after all of them; the row inserted is the one with the previous review's ID exactly when that outruns every stored row |
| Requests.RecordedRowIsLatestIff | internal/tools/request.go:106-129 | After success the latest row is the inserted one iff it carries the previous review's ID or the clock has not fallen behind |
| Requests.OldReviewCountsIff | internal/tools/request.go:93-105 | From the recorded row, the review already there ends a later wait iff no ID was recorded and it is no earlier than the request the timeline shows, or, without one there, the fetch was too short of rate limit to list it and it is no earlier than the second of the insertion |
| Requests.LowRateTakesOldReviewForNew | internal/github/client.go:217-220 | It happens: with less than 10 requests left the reviews are not listed, the request goes out, and the next full fetch takes the review of the running second for the answer |
| Requests.OldTimelineTakesOldReviewForNew | internal/github/client.go:278-285 | It happens: an earlier finished request keeps the new row from carrying an ID, a later page of the timeline fails, and the request still shown is older than the review, which then counts; with all pages read it does not |
| Requests.NewReviewCounts | internal/tools/request.go:93-99 | With an ID recorded, a review with another ID always ends the wait, as blocked iff it requests changes |
| Requests.ClockBehindHidesRow | internal/tools/request.go:120-122 | It happens: with the clock behind, the new row is stored behind a finished one and a lookup finds that one |
| Requests.NoSecondRequestWhilePending | internal/tools/request.go:51-89 | GitHub is asked only when nothing is pending and Copilot is not yet asked; a recorded request is pending |
| RequestRuns.PendingRows | internal/tools/request.go:51-62 | Over every run of calls and completions at most one row per pull request is pending; while the clock keeps up for rows without an ID, it is the one a lookup finds |
| RequestRuns.OldReviewCountsInRunsIff | internal/tools/request.go:93-129 | In every run of calls, completions and arriving reviews, and whichever row a lookup then finds, hidden rows included: exactly when the review already there ends a later wait |
| RequestRuns.HiddenRowBlocksForever | internal/tools/request.go:51-62 | A row hidden when it was recorded stays hidden: no lookup ever finds it, nothing completes it, and every further request for the pull request is refused |
| FollowUpMarker.ReplyCarriesItsMarker | internal/tools/follow_up.go:243-295 | A composed reply has the marker of its own source and of no other valid target, for any validated text and one-line URL |
| FollowUpMarker.IssueCarriesItsMarker | internal/tools/follow_up.go:422 | The same for a composed issue |
| FollowUpMarker.ReplyBodySays | internal/tools/follow_up.go:295 | A composed reply is, line by line, the URL of the comment, an empty line, the whole text, an empty line and the source |
| FollowUpMarker.IssueBodySays | internal/tools/follow_up.go:422 | A composed issue is, line by line, the text, the pull request, the comment, the head, the reason and the source |
| FollowUpMarker.MarkersAgreeIff | internal/tools/follow_up.go:240-242 | Two valid targets share a marker iff lower-case owner and repository, number, kind and ID agree |
| FollowUpMarker.UnixLines | internal/tools/follow_up.go:243-245 | Replacing line endings drops one carriage return from every line but the last |
| FollowUpMarker.MarkerSurvivesCrlf | internal/tools/follow_up.go:243-245 | A body stored with the other line ending has the same markers |
| FollowUp.LocateFollowUp | internal/tools/follow_up.go:190-211 | Finds the first comment with the kind, ID and thread, if it has a URL |
| FollowUp.ReplyToComment | internal/tools/follow_up.go:263-298 | The reply tool's checks and calls, in order, up to the write |
| FollowUp.PostFollowUpReply | internal/tools/follow_up.go:299-323 | The write, the verified re-read, the read-back and the last context check, and what each failure reports |
| FollowUp.ReadFollowUpIssue | internal/tools/follow_up.go:351-371 | Metadata, actor check, text and metadata again; fails on any difference but label order |
| FollowUp.IssueMetadataEqual | internal/tools/follow_up.go:342-350 | Everything but title and text equal, labels as multisets |
| FollowUp.CreateFollowUpIssue | internal/tools/follow_up.go:372-407 | The issue tool's checks and searches, in order |
| FollowUp.FileFollowUpIssue | internal/tools/follow_up.go:408-423 | Labels, snapshot and context are checked again before the write |
| FollowUp.PostFollowUpIssue | internal/tools/follow_up.go:423-441 | The write and its read-back |
| FollowUp.GetFollowUpIssue | internal/tools/follow_up.go:443-465 | Reading an issue back for a located source |
| FollowUpGuarantees.ReplyWritesOnce | internal/tools/follow_up.go:263-324 | At most one write; an error says "may have changed" iff the write was attempted, and names what was created; the write is the guarded one and says URL, text and source line by line; a success shows that very reply, listed by a body read and read back as written, by the bot that this call found to be the App, and reports the verified head, snapshot and policy commit |
| FollowUpGuarantees.ReplyTrace | internal/tools/follow_up.go:263-324 | A written reply comes right after a context that is OPEN at the expected head and a body read of the expected snapshot that shows no reply with the marker by the bot, with the source located |
| FollowUpGuarantees.AlreadyRepliedMeans | internal/tools/follow_up.go:282-294 | "Already replied" names a reply listed with the marker and read again with the same text and the identified App as author |
| FollowUpRepeats.NoSecondReply | internal/tools/follow_up.go:282-294 | While reads from some point on show a text with the marker of a comment by the App's bot, whoever composed it, no call for that comment writes |
| FollowUpRepeats.RepliesOnce | internal/tools/follow_up.go:282-294 | A call that wrote a reply, its outcome known or not, stops every later call for the same comment as long as reads from its end on show that reply |
| FollowUpRepeats.OncePerComment | internal/tools/follow_up.go:282-294 | In a session of any reply and issue calls, with a GitHub that keeps what it accepted, at most one call of each tool per comment is accepted: every later one writes nothing and fails |
| FollowUpExample.ReplySucceedsOnce | internal/tools/follow_up.go:263-324 | For every valid reply to an issue comment there is such a GitHub: the first call succeeds on it, and the next call for the comment writes nothing |
| FollowUpGuarantees.SourceIsTheTrustedComment | internal/tools/follow_up.go:215-229 | The source is the only comment with its kind and ID in the verified snapshot, the URL is its own, and its author is in the server list or in the allowlist which that read fetched at the snapshot's policy commit |
| FollowUpGuarantees.IssueWritesOnce | internal/tools/follow_up.go:372-441 | The same write-once contract for issues: the issue created says text, pull request, comment, head and reason line by line and is read back with title, text, labels, state and URL |
| FollowUpGuarantees.IssueTrace | internal/tools/follow_up.go:372-441 | A written issue comes right after a matching context check and a second verified read of the expected snapshot, after the labels were found, and after a search that found at most one issue, whose text was read and is not the bot's issue for the same comment |
| FollowUpGuarantees.FollowUpExistsMeans | internal/tools/follow_up.go:389-407 | "A follow-up exists" names issues read with the marker and the identified App as author, or all of several found |
| FollowUpRepeats.NoSecondIssue | internal/tools/follow_up.go:389-401 | While searches find an issue that reads with the marker of a comment and the App's bot as author, whoever composed it, no call for that comment files another |
| FollowUpRepeats.FilesOnce | internal/tools/follow_up.go:389-401 | A call that filed an issue, its outcome known or not, stops every later call for the same comment as long as the issue is found and reads as written from its end on |
| FollowUpGuarantees.ReadingAnIssueWritesNothing | internal/tools/follow_up.go:443-489 | Reading an issue never writes, and its errors never claim otherwise |
| IssueGuarantees.IssueReadIsChecked | internal/tools/follow_up.go:326-371 | The text of an issue is requested only right after metadata of the same issue whose author and last editor passed the allowlist read at the snapshot's policy commit; a returned issue has allowed actors and the same metadata on all three reads |
| IssueGuarantees.ReadBackIssueIsTrusted | internal/tools/follow_up.go:443-465 | Reading an issue back for a source in the verified snapshot: every text request follows that check, the issue returned is one this call read so at the verified policy commit, and the last call finds the pull request unchanged |
| IssueGuarantees.FiledIssueIsTrusted | internal/tools/follow_up.go:372-441 | Filing an issue: the text of every candidate and of the written issue is requested only after that check, and the issue a success returns is the one this call created, read so by the four calls right after its creation |
| Descriptions.UpdateWritesOnce | internal/github/description.go:158-205 | At most one PATCH, under the expected head, hash and state and by a bot with the App's login; errors say "may have changed" iff it was attempted; "unchanged" writes nothing |
| Descriptions.UpdateReadsBack | internal/github/description.go:190-204 | "updated" means the last read shows the body asked for, edited by that bot under either spelling of its login, with the original author and head unchanged |

## Left out

- Locks, goroutines and tickers: a lock section is one atomic step, a fetch lies between two of them, and any worker may take the next step.
- The clock: one non-decreasing clock serves the manager and its table, strictly later at a restart; the trigger_log clock is unconstrained except where a lemma says so.
- Message texts: the watch manager's messages and hints are constructors with the values they print.
- Watch IDs: a pair of nanoseconds and count instead of the printed string; the resource URI derived from it is not modelled.
- A database fault: a failed upsert changes no row; a failed lookup before Start's lock section, which only returns an error, is not modelled.
- A manager without a database, the option defaults of `NewManager` and a missing notification callback.
- `Manager.List`, `Manager.GetByID` and the trigger_log completion after a cancellation: a listing, a map lookup and a fire-and-forget update.
- ReviewFetch.GetReviewData: the pages of each list are given as those that answered, and whether the request after them failed; a failing timeline request keeps what was read, as the code does.
- RequestRuns.OldReviewCountsInRunsIff: reviews arrive between request calls, not between the fetch and the insert of one call.
- WatchRequests.ReadReview: in joined runs the lookup and the completion of one poll are one step of the log.
- Several processes on one database, and two review requests interleaved between their guards and their inserts.
- FollowUpRepeats.OncePerComment: the calls of a session follow one another; two calls running at once are not modelled.
- WatchManager.Manager.GetLatest: a failing table look-up, answered like a missing row, is not modelled.
- WatchManager.Manager.CancelContext: cancels one context at a time; the loop over the closed watches is the caller's.
- CommentPages.CommentSnapshot: page chains end because the caller's deadline passes after some number of queries; times are taken as already formatted.
- CheckRuns.ListCheckRunsForSHA: `sort.Slice` is the model's sorting function; by uniqueness of the order any sort gives the same list.
- FollowUpMarker.ReplyCarriesItsMarker: texts are sequences of characters, so the UTF-8 validity checks always pass; lower case is exact where it reaches ASCII, which is all the reserved words need outside their Japanese parts.
- FollowUp.ReplyToComment: the searches and label lookups of GitHub are single calls that succeed or fail; their paging is not modelled.
- Descriptions.UpdateReadsBack: logins are compared with ASCII folding; the last-edit time of a description is not carried.
- The branches that sort GitHub errors into kinds, the recommended next action, the cycle status, token diagnostics, and the thread tools: mostly settled by reading one branch.
- HTTP, GraphQL and REST transport, tool registration, JSON, configuration, and the SQL text and migrations.
