# Klaxond: verified models of its protocols and codecs

Klaxond is an alert gateway with a Rust service and a JavaScript console. This
project models the parts of it whose correctness depends on interleavings, on
crashes, on whole runs or on every string, and proves what they are for.

Where the source works step by step on shared state, the model has two layers.
Functions on a plain state value say what each piece of code between two
suspension points or lock boundaries does, and a class with the source's own
fields, loops and early returns is proved equal to them. Runs, that is lists of
events of any length, are then taken over those functions, and the main results
are about every run.

What a function decides (which events are grouped, which alerts are held back, what
a save submits) is said once more without it, by the inputs, the rows, the times or
the trace, so that the results do not rest on the definitions they speak of.

| modules | what they model |
|---|---|
| `QueryClient`, `QueryRuns`, `QueryGuarantees` | the generation-guarded query cache of the console, against an uncached server, and what each option of a call is owed |
| `DedupBuffer`, `Subsequences`, `DedupRuns`, `DedupGrouping` | the burst-grouping buffer with its sleeping timers and its pending file, over crashes and restarts, and which events it holds back |
| `RateLimits`, `LimitRuns`, `AuthStore`, `SessionEffects`, `SessionProbes`, `HistorySwitch`, `HistoryRuns` | failed-login records and when they lock, the authentication state of a backend, what its operations do and what they can tell about it, the switch of the history backend, and authentication clients beside it |
| `RoutingEditor`, `RoutingRuns` | the optimistic editor of topics and channels |
| `Inhibition`, `InhibitionRuns` | the suppression list, and which alerts it holds back, against the trace of alerts |
| `OidcCache` | the prepared OIDC provider beside configuration changes |
| `AuthSidecar`, `TotpReplay`, `Text` | the authentication settings file with its environment overrides, and the TOTP counter in it |
| `Paging` | the bounded logs, their pages, and the table pager |
| `CsvExport`, `RuleMatch`, `Base64Url`, `SignedToken`, `SourceSlug` | writers and readers of text |
| `EmergencyTimeline` | the preview of an emergency profile |

## Findings

Some properties one would expect do not hold of the code. The model keeps the
code as it is, shows the failure and proves when the property does hold.

* A crash of the grouping buffer can drop more than the one batch being handed
  over: deliveries happen outside the lock, and any number of batches can be in
  hand at once (`ManyBatchesInHand`). What is lost is exactly those batches and
  the queued items that the file does not give back (`NothingVanishes`); the
  file is exactly the queue if and only if every write since the queue was
  emptied brought its record, the last perhaps without its newline
  (`SavedIsQueueIff`, `SinceRemovalIff`, `SinceFlushIff`).
* The errors of `remove_file` are ignored. Over every run, whatever removals and
  writes fail, nothing is handed over twice if and only if no restart got an item
  from the file that the file still gave when a flush, or an earlier restart, took
  it out and could not remove the file (`HandedOnceIff`, `StaleIsLeftover`); a
  flush or a restart leaves such an item exactly when its own removals fail
  (`FlushLeavesStaleIff`, `RestoreLeavesStaleIff`).
* A pending file that a restart does not read, because the source is no longer
  configured or the read failed, is deleted by the next flush of that source and
  its items are lost (`OrphansAreLost`, an equivalence).
* One write that is cut inside a character makes the pending file unreadable as
  text: a restart gets nothing back from it, nor from anything appended later,
  until the file is removed (`UnreadableIff`, over every run).
* Importing a snapshot into a backend merges it with what the backend holds, and
  keeps each epoch of a failed login once. The switch is invisible to
  authentication if and only if the backend held only older versions of the
  snapshot's records, or what nothing can see, and no record of the snapshot has
  two failures in one second inside the window (`ImportInvisibleIff`,
  `SwitchInvisibleIff`). Of a session that is the whole record while it lives, what
  the successor lookup reads while its revocation is recent, its family and expiry
  until the purge, and nothing after that; wherever this differs some operations
  answer differently (`WhatIsSeenShows`). So even a switch to an empty backend, or
  one that only changes the retention, can lower the count of failures
  (`RepeatIsLost`, `FreshImportIff`, `SameBackendShowsIff`), and a record that was
  cleared comes back from a backend that still shows it (`ClearedFailuresReturn`).
  The limiter sees one store if and only if each switch met its condition
  (`OneStoreIff`).
* Sessions and logout tokens survive every switch (`OneSessionStore`), with one
  exception: a login or rotation deletes the rows of sessions that expired more
  than a day ago, and a switch can bring such a row back from an old copy. A logout
  by its id then revokes a family that lives on in the one store and not in the
  other. Clients see one session store all along if and only if no logout and no
  insert names an id that only one of the two stores has purged, in the case of a
  logout while the family lives (`OneSessionStoreIff`, `RevokeFamilyAlikeIff`,
  `PurgedSessionReturns`).
* A save of the ntfy topics leaves out the rows without a name, and the reply then
  replaces the form and marks it clean. In every run a save that is taken over
  stores, and shows, all rows of the form if and only if each has a name
  (`AdoptedSaveStoresAllIff`, `AdoptedSaveShowsAllIff`); a topic that was added and
  given a token but no name is gone (`NamelessTopicIsLost`).
* An OIDC login can be refused although discovery would succeed. A call for the
  live setting is refused exactly when the entry of the generation it loaded goes
  back to a request that read an older setting, or, without a public URL, to one
  for another host (`LiveCallRefusedIff`). Three ways lead there: an old request
  that is prepared after the change (`OldRequestBlocks`), the window between the
  write of a configuration and its generation (`WindowRefuses`), and another host
  with no change at all (`OtherHostBlocks`). The refusals last until the
  generation moves if and only if no call under way has loaded an earlier one
  (`BlockedUntilBumpIff`).
* The emergency timeline starts at 0 if and only if every escalation shown is
  set to at least one attempt; a smaller number puts it before 0
  (`TimelineShape`, `StartsBeforeZero`).
* Of the texts that the browser's base64url decoder reads, the gateway refuses
  exactly those with a blank, a '+' or a '/', those with '=' signs that do not
  complete them, and those with bits left over (`OnlyBrowserReadsIff`), "AB" for one
  (`BrowserIsLaxer`); everything the gateway reads the browser reads alike.
* A payload that arrives for a routing section is dropped exactly when a newer
  load, a save or an edit has overtaken its load (`AppliesIff`). Only then can a
  form that is neither dirty nor owes a reload show something older than the
  server's last answer (`CleanFormsShowTheLastAnswer`).

## Model

| member | source | states |
|---|---|---|
| `QueryClient.QueryCache.constructor` | static/app-query.js:31-34 | the client starts with nothing cached, nothing registered, generation 0 |
| `QueryClient.QueryCache.Start` | static/app-query.js:107-142 | up to its first suspension a call is answered from a fresh entry, joins a pending request or issues one, and only issuing changes the maps |
| `QueryClient.QueryCache.OnPayload` | static/app-query.js:133-141 | an arriving payload fills the cache exactly when its TTL is positive and the generation has not moved |
| `QueryClient.QueryCache.Finish` | static/app-query.js:149-152 | the finalizer removes the two entries only if they are still its own |
| `QueryClient.QueryCache.Invalidate` | static/app-query.js:73-89 | exactly the covered entries go from both maps, in-flight controllers stay, and the generation moves by one |
| `QueryClient.QueryCache.OnMutationSuccess` | static/app-query.js:155-157 | a successful mutation clears everything unless it is a read, a bypassed path or marked to be skipped |
| `QueryRuns.RunInv` | static/app-query.js:73-153 | the invariant of every interleaving of calls, responses, rejections, invalidations and server changes |
| `QueryRuns.EntriesFollowInvalidations` | static/app-query.js:73-153 | in every interleaving each cached and each joinable entry comes from a request issued after the last invalidation covering its key |
| `QueryRuns.NeverStale` | static/app-query.js:107-153 | what a positive-TTL call hands back is what the server held under its key at a moment after the last covering invalidation |
| `QueryRuns.AgreesWithServer` | static/app-query.js:107-153 | if every change was announced by a covering invalidation, the answer is what the uncached server would give now |
| `QueryRuns.CacheHonoursTtl` | static/app-query.js:112-114 | an answer from the cache is younger than the TTL it was stored with |
| `QueryRuns.RequestBound` | static/app-query.js:107-153 | one call issues at most one request more than there were invalidations during it |
| `QueryRuns.EndsWhenInvalidationsStop` | static/app-query.js:117-121 | once its promise has settled, a call ends at its next continuation unless an invalidation came since its attempt began, and otherwise owns one new request of the current generation |
| `QueryRuns.NothingLeaks` | static/app-query.js:149-152 | when no call is active, the pending and in-flight maps are empty |
| `QueryRuns.FinalizersRemoveOwn` | static/app-query.js:149-152 | a call that ends takes out exactly what its own last request registered |
| `QueryRuns.SecondCallSharesRequest` | static/app-query.js:115-142 | a second plain call for a key shares the request that the first one issued, or finds it answered |
| `QueryRuns.FilledCacheAnswers` | static/app-query.js:112-141 | a payload that arrives in the generation it was asked for answers every plain call within its TTL without another request |
| `QueryRuns.JoinsPending` | static/app-query.js:115-117 | a plain call that finds a joinable request issues none and waits for one that some call still owns and that follows the last covering invalidation |
| `QueryGuarantees.RequestsAreCounted` | static/app-query.js:107-153 | in every run the number of requests of a call is that of the requests on the wire that it issued |
| `QueryGuarantees.HowCallsStart` | static/app-query.js:112-142 | in every run a fresh entry answers exactly the calls with a TTL that are not forced, a pending request is joined by exactly those of them that find no fresh entry and may join, and all others issue |
| `QueryGuarantees.ForcedCallIssues` | static/app-query.js:112-142 | a forced call, or one without a TTL, issues one request of its own as it begins, whatever is cached or pending |
| `QueryGuarantees.ForcedCallAsksServer` | static/app-query.js:107-153 | through every run such a call joins nothing, issues at least one request and at most one more for each invalidation since, and hands back only what the server held at a moment not before it began |
| `QueryGuarantees.AbortsNewestIff` | static/app-query.js:124-129 | in every run a call that issues aborts the newest request of its scope, exactly if that is still waited for and aborting is not switched off, and no other |
| `QueryGuarantees.InvalidationDropsExactly` | static/app-query.js:73-89 | in every run an invalidation drops exactly what is kept under the keys that one of its patterns occurs in, or everything when it has none or an empty one |
| `QueryGuarantees.MutationClearsIff` | static/app-query.js:67-71 | in every run a successful request clears cache and pending requests exactly if it is no GET, HEAD or OPTIONS in any letter case, not marked to be skipped, and none of the four previews |
| `DedupBuffer.DedupBuffer.constructor` | src/dedup/persistence.rs:5-10 | a new process has empty queues, no timers, and the files an earlier one left |
| `DedupBuffer.DedupBuffer.Enqueue` | src/dedup.rs:65-81 | one item joins the queue and the file, and a timer is armed only if none was active; other sources are untouched |
| `DedupBuffer.DedupBuffer.Submit` | src/dedup.rs:29-83 | an event is buffered exactly when it is no recovery, its source groups, it is not a critical one without override, and no bypass rule matches |
| `DedupBuffer.DedupBuffer.FlushSource` | src/dedup.rs:121-133 | a flush takes the whole queue in order, deactivates the timer and removes the file if it can; sleeping tasks stay |
| `DedupBuffer.DedupBuffer.TimerFires` | src/dedup.rs:76-79 | a task that wakes up is gone and flushes its source, whichever burst it was armed for |
| `DedupBuffer.DedupBuffer.FlushAll` | src/dedup.rs:114-119 | every configured source is flushed and no other is touched |
| `DedupBuffer.DedupBuffer.ParseLines` | src/dedup.rs:96-101 | the loop over the lines gives the records of the file in order, an unterminated last one included, and skips what does not parse |
| `DedupBuffer.DedupBuffer.RestoreSource` | src/dedup.rs:89-110 | at start a readable file is handed over and removed, an unreadable one is left alone |
| `DedupBuffer.DedupBuffer.RestorePending` | src/dedup.rs:85-112 | the same for every configured source, and nothing for the others |
| `DedupRuns.QueueHasTimer` | src/dedup.rs:65-133 | in every run, disk failures and crashes included, a non-empty queue is active and a sleeping task is due no later than the arming window after every queued item's arrival |
| `DedupRuns.NoItemOverdue` | src/dedup.rs:72-80 | when all due tasks have run, no queued item has waited as long as the arming window |
| `DedupRuns.TasksSleepOn` | src/dedup.rs:76-79 | in every run a sleeping task goes only by waking up or with the process |
| `DedupRuns.SavedAppend` | src/dedup/persistence.rs:12-21 | what one append, complete or cut anywhere, adds to what can be read back, and what it can take away behind an unfinished line |
| `DedupRuns.NothingVanishes` | src/dedup.rs:65-171 | in every clean run each accepted item is in exactly one of five places, items leave the queue in arrival order and never twice, and the file reads back as a subsequence of the queue |
| `DedupRuns.UnreadableIff` | src/dedup.rs:93-95 | in every run, failing removals included, the file is unreadable if and only if a write was cut inside a character since it was last removed |
| `DedupRuns.SavedIsQueueIff` | src/dedup/persistence.rs:12-25 | in every clean run the file gives back exactly the queue if and only if nothing was queued since the queue was emptied, or the file was then ready for a record and every write since brought one, the last perhaps without its newline |
| `DedupRuns.SinceRemovalIff` | src/dedup/persistence.rs:12-25 | when the file was removed as the queue was emptied, only the writes since count |
| `DedupRuns.SinceFlushIff` | src/dedup/persistence.rs:12-25 | after a flush that removed the file, and any submissions, the file gives back the queue if and only if each of their writes brought its record, the last perhaps without its newline |
| `DedupRuns.FullWritesLoseOnlyBatches` | src/dedup/persistence.rs:12-21 | when every write of a clean run succeeds, a crash costs only batches in hand |
| `DedupRuns.HandedOnceIff` | src/dedup.rs:85-133 | in every run, whatever removals and writes fail, no item is handed over twice if and only if no restart that read the file got an item that the file still gave when a flush or an earlier restart took it out, with no removal in between |
| `DedupRuns.StaleIsLeftover` | src/dedup.rs:121-133 | in every run, what was left over in the file as flushes and restarts took it out, since the last removal, is exactly what the file gives back of all that was ever handed over |
| `DedupRuns.FlushLeavesStaleIff` | src/dedup.rs:121-133 | a flush leaves such an item in the file exactly when its removal failed and the file gives back something that was queued or handed over |
| `DedupRuns.RestoreLeavesStaleIff` | src/dedup.rs:102-110 | a restart that reads the file leaves such an item exactly when it gave something back and both removals failed |
| `DedupRuns.HandedTwiceUnlessRemoved` | src/dedup.rs:131-132 | after a clean run, a flush followed by a restart hands nothing over twice if and only if the flush removed the file or the file gave nothing back |
| `DedupRuns.OrphansAreLost` | src/dedup.rs:85-95 | after a restart and the next flush every item is still accounted for if and only if the file was restored or gave nothing back |
| `DedupRuns.UnreadFileStays` | src/dedup.rs:85-95 | a restart that does not read the file leaves it alone, and the next one that does hands over all it gives |
| `DedupRuns.ManyBatchesInHand` | src/dedup.rs:121-171 | for every n there is a clean run with n batches in hand at once |
| `DedupGrouping.SubmissionJoinsIff` | src/dedup.rs:29-69 | in every run an event joins the end of the queue, or leaves no trace if it is a recovery in any letter case, its source has no setting, is switched off or does not group, it is critical without override, or a rule bypasses it |
| `DedupGrouping.ArrivedAreGrouped` | src/dedup.rs:29-69 | in every run exactly the submitted events that none of this holds of have arrived, in order |
| `DedupGrouping.HeldItemsWereGroupable` | src/dedup.rs:29-133 | in every run, failures and crashes included, every item that is queued, in hand, delivered, dropped, lost or in the file came from such an event |
| `RateLimits.CheckIsInvisible` | src/history/sqlite/rate_limit.rs:9-17 | asking whether an account is locked, which prunes, rewrites or deletes its row, changes nothing that the policy sees of any account |
| `RateLimits.CountingIsLocal` | src/history/sqlite/rate_limit.rs:19-34 | counting a failure counts it for its own account, and deleting stale rows changes nothing that is seen of the others |
| `RateLimits.LockedAtMaximum` | vendor/auth-modules/src/rate_limit/types.rs:90-102 | the failure that reaches the maximum inside the window locks the account for the whole lockout window |
| `RateLimits.SeenLater` | vendor/auth-modules/src/rate_limit/types.rs:112-123 | what the policy sees of a record later follows from what it sees now, whether the record was pruned or not |
| `RateLimits.MergeSeenIff` | src/history/rate_limit.rs:11-42 | after a merge the policy sees the incoming record if and only if its failures inside the window are in order without a repeat and the held record adds neither a failure nor a longer lockout |
| `RateLimits.MergeCountsEpochs` | src/history/rate_limit.rs:15-24 | a merged record has each epoch of either side once |
| `RateLimits.LimitsImportedIff` | src/history/sqlite/rate_limit.rs:59-66 | after an import the policy sees exactly the snapshot if and only if every record the backend held is absorbed and no snapshot record repeats an epoch |
| `RateLimits.FreshImportIff` | src/history/rate_limit.rs:11-26 | an import into a backend without records is invisible if and only if no record repeats an epoch inside the window |
| `RateLimits.RepeatIsLost` | src/history/rate_limit.rs:15-24 | two failures in one second are one after an import into an empty backend |
| `LimitRuns.LockedIff` | src/history/sqlite/rate_limit.rs:9-42 | in every run of checks, failures and successes of all accounts, an account is locked if and only if some failure of it since its last success, less than ten minutes ago, was the tenth within five minutes |
| `LimitRuns.FailureAnswersIff` | src/history/sqlite/rate_limit.rs:19-34 | a failure answers that the account is locked exactly if it is, this failure counted |
| `AuthStore.MergeSeenAsIncomingIff` | src/history/sqlite/session/state.rs:31-40 | a session imported over another is seen as the incoming one if and only if the held one is an earlier version of what is seen of it |
| `AuthStore.SessionsImportedIff` | src/history/sqlite/session/state.rs:21-58 | after an import exactly what is seen of the snapshot's sessions is seen, if and only if the backend held only earlier versions of it or what may be purged |
| `AuthStore.TokensImportedIff` | src/history/sqlite/session/state.rs:85-108 | after an import exactly the snapshot's logout tokens are refused if and only if the backend held no other live token and none that lives longer |
| `AuthStore.ImportInvisibleIff` | src/history/sqlite/auth_state.rs:5-18 | an import is invisible to authentication if and only if the sessions, tokens and failed-login records that the backend held are absorbed and no snapshot record repeats an epoch |
| `AuthStore.ImportKeepsRestrictions` | src/history/sqlite/auth_state.rs:5-18 | an import never forgets a revocation, a consumed token, a lockout or an epoch with a failure of either side |
| `SessionEffects.LookupFindsIff` | src/history/sqlite/session.rs:15-38 | a lookup answers exactly with a session that is stored, unrevoked, unexpired and not too old, as last seen now if a minute has passed; any other is found by no lookup ever after, and no other row changes |
| `SessionEffects.RevokeEndsChosen` | src/history/sqlite/session.rs:40-45 | a revocation ends exactly the chosen sessions for good, whatever follows, and leaves every other row and token as it is |
| `SessionEffects.LogoutEndsFamily` | src/history/sqlite/session.rs:47-74 | a logout by the id of a stored session ends exactly the sessions with its subject and family, one by an unknown id nothing |
| `SessionEffects.LogoutTokenEndsChosen` | src/history/sqlite/session.rs:76-115 | a logout token that is new or expired is no replay: it ends exactly the sessions it chooses and is kept |
| `SessionEffects.ReplayEndsNothing` | src/history/sqlite/session.rs:101-107 | a logout token that is still held is a replay and ends no session |
| `SessionEffects.ReplayedUntilExpiry` | src/history/sqlite/session.rs:83-107 | after a first logout, whatever operations follow, the same token is a replay exactly until it expires |
| `SessionEffects.LoginJoinsIff` | src/history/sqlite/session/rotation.rs:9-53 | a login succeeds exactly under an unused id; then its row joins, the victims of the concurrency limit are ended, rows expired for more than a day go, and all others stay |
| `SessionEffects.RotationJoinsIff` | src/history/sqlite/session/rotation.rs:9-84 | a rotation does so, ending its predecessor, exactly if that is stored, of the same subject and family, and valid; otherwise nothing changes, and it counts as done exactly if it has just been done for the same user and expiry |
| `SessionEffects.SuccessorFindsIff` | src/history/sqlite/session/rotation.rs:86-117 | the successor lookup answers exactly with a valid session that the predecessor became in a rotation at most ten seconds ago |
| `SessionProbes.WhatIsSeenShows` | src/history/session.rs:31-69 | wherever two stores differ in what is seen of a session, some operations, an id unused by both among them, answer differently |
| `AuthStore.SessionsActAlikeIff` | src/history/sqlite/session.rs:15-180 | on stores that show the same sessions and tokens every operation of the clients answers alike and leaves them showing the same, if and only if both or neither of them still hold the row that a logout or an insert names, or the family of the logout is dead |
| `AuthStore.RevokeFamilyAlikeIff` | src/history/sqlite/session.rs:47-74 | a logout by the id of any row, live or not, acts alike on such stores if and only if both have the row, neither has, or no session of its family lives |
| `AuthStore.CreateAlikeIff` | src/history/sqlite/session/rotation.rs:9-84 | a login or rotation, its predecessor test, the answer to a repeated one, the revocations and the purge act alike on such stores if and only if it inserts into both or into neither |
| `AuthStore.SuccessorAlike` | src/history/sqlite/session/rotation.rs:86-117 | the successor lookup answers and acts alike on such stores |
| `AuthStore.RepeatedRotation` | src/history/session.rs:48-85 | a rotation that is repeated while its result is valid succeeds within the grace and changes nothing, and later fails; the predecessor's cookie leads to the same session just as long |
| `AuthStore.AccountsAfter` | src/history/sqlite/rate_limit.rs:9-42 | of every operation, only counting and clearing change what the policy sees, and only of their own account |
| `AuthStore.AccountsActAlike` | src/history/sqlite/rate_limit.rs:9-42 | accounts that the policy sees alike stay alike through every operation, and are locked alike |
| `AuthStore.LookupAlike` | src/history/sqlite/session.rs:15-38 | looking a session up, which may revoke or touch it, answers and acts alike on such stores |
| `AuthStore.OperationsAdvance` | src/history/sqlite/session.rs:15-180 | after any operation each session is a later version of what it was before, and each token is refused no less, so that a copy of the old state has nothing to bring back |
| `AuthStore.ClearedFailuresReturn` | src/history/sqlite/rate_limit.rs:36-42 | a record that was cleared is seen again, as the other backend has it, after importing into a backend that still shows it |
| `AuthStore.PurgedSessionReturns` | src/history/sqlite/session.rs:47-74 | importing into a backend that never purged an expired session brings its row back, unseen, and a logout by its id then revokes what lives of its family |
| `HistorySwitch.AppState.RollbackAfter` | src/state.rs:215-226 | the closure is taken: the first call runs it once and says whether it failed, a later one runs nothing |
| `HistorySwitch.AppState.ApplyRuntimeConfig` | src/state.rs:156-169 | the configuration is replaced, the cascade flag only on request, and the OIDC generation moves exactly when OIDC settings or the public URL changed |
| `HistorySwitch.AppState.CommitConfigReplacement` | src/state.rs:113-154 | the whole replacement, with any of its fallible calls failing, does what its single steps do one after another |
| `HistorySwitch.AppState.SwitchStore` | src/state.rs:127-154 | the part under the write lock, step by step |
| `HistorySwitch.AppState.FillStore` | src/state.rs:138-153 | the part after the new store was opened, step by step |
| `HistorySwitch.AppState.UseStore` | src/state.rs:138-151 | the new store holds the import and becomes active, the history generation moves and the activity cache is cleared |
| `HistorySwitch.FailureKeepsTheOldStore` | src/state.rs:113-154 | a replacement fails exactly when one of its calls does; then store, contents, configuration and both generations are unchanged, and the rollback ran exactly once if the commit was attempted and not otherwise |
| `HistorySwitch.SuccessMovesTheStore` | src/state.rs:127-153 | a successful switch makes the new backend active with everything the old one held, and touches no other |
| `HistorySwitch.ReplacementSaysWhy` | src/state.rs:113-154 | the answer names the first call that fails, with what the rollback came to |
| `HistorySwitch.ReplacementPublishes` | src/state.rs:156-169 | a replacement that succeeds publishes the whole configuration, moves the OIDC generation exactly if the OIDC settings or the public URL are others, and resets the cascade exactly on request |
| `HistorySwitch.OnlySwitchesTouchHistory` | src/state.rs:113-154 | without new history settings, or when it fails, a replacement leaves every backend, the history generation and the activity cache alone |
| `HistoryRuns.NoOperationIsMissed` | src/state.rs:127-179 | in every interleaving clients run on the active store and never during a switch, the snapshot is all the active store holds until the import, and what is active after the swap is the import of all that into what the target held |
| `HistoryRuns.SwappedStoresStay` | src/state.rs:148-153 | from the swap to the end of the replacement no store changes |
| `HistoryRuns.OneSessionStore` | src/state.rs:113-179 | through any number of switches with failures at any point, with logins, rotations, their repeats, lookups, successor lookups, logouts and revocations beside them, sessions and logout tokens are seen as they would be with one store and no switch |
| `HistoryRuns.OneSessionStoreIff` | src/state.rs:113-179 | every operation of a run answers as on the one store and leaves what is seen as it is there, if and only if each logout and insert named an id that both stores or neither held, or that of a dead family |
| `HistoryRuns.SeenOrUnknownAgrees` | src/state.rs:175-179 | an operation meets that condition unless it names an id whose session only one of the two stores has purged |
| `HistoryRuns.ImportShowsIff` | src/state.rs:138-145 | the import of a switch keeps what the limiter sees if and only if the target's records are absorbed and the snapshot repeats no epoch |
| `HistoryRuns.OneStore` | src/state.rs:113-179 | if every switch met that condition, authentication sees one store throughout, with failed logins counted, checked and cleared |
| `HistoryRuns.OneStoreIff` | src/state.rs:113-179 | authentication sees one store after every event of a run if and only if every switch of it met the condition |
| `HistoryRuns.AnswersAgree` | src/state.rs:175-179 | every answer about sessions and tokens is that of the one store, and under the condition every answer is |
| `HistoryRuns.SwitchInvisibleIff` | src/state.rs:127-153 | a completed switch is invisible to authentication if and only if the new backend held nothing that shows through and no failure repeats |
| `HistoryRuns.SameBackendShowsIff` | src/state.rs:121-153 | a switch that stays on its backend is invisible if and only if no record repeats an epoch inside the window |
| `RoutingEditor.RoutingEditor.MarkRoutingSectionDirty` | static/app-routing-topics.js:73-83 | marking a section dirty moves its revision and cancels its forced reload; marking it clean only clears the mark |
| `RoutingEditor.RoutingEditor.Edit` | static/app-routing-channels.js:163-170 | an edit marks exactly its section dirty |
| `RoutingEditor.RoutingEditor.StartLoad` | static/app-routing-topics.js:97-110 | a load goes out unless the section is being saved, or is dirty and the load is not forced; a forced one met by a save is owed |
| `RoutingEditor.RoutingEditor.OnLoaded` | static/app-routing-channels.js:78-83 | a payload is applied exactly when neither generation nor revision has moved |
| `RoutingEditor.RoutingEditor.CollectNtfyTopicsDraft` | static/app-routing-topics.js:144-162 | the loop collects the rows in order with their names trimmed, and on request leaves out those without a name |
| `RoutingEditor.RoutingEditor.StartSave` | static/app-routing-topics.js:173-187 | one save at a time; it makes every load on the way obsolete, remembers the revision, and submits the form without its nameless rows |
| `RoutingEditor.SubmitsWholeIff` | static/app-routing-topics.js:144-187 | a save submits every row of the form with its trimmed name, token and handles if and only if no trimmed name is empty |
| `RoutingEditor.SubmittedRowsAre` | static/app-routing-topics.js:149-160 | by position: what is submitted are exactly the rows whose trimmed name is not empty, in order, each with its own trimmed name, token and handles |
| `RoutingEditor.RoutingEditor.AdoptReply` | static/app-routing-topics.js:205-225 | the answer is taken over only if nothing was edited since |
| `RoutingEditor.RoutingEditor.OnSaved` | static/app-routing-channels.js:139-160 | the section is no longer being saved, and a reload that is owed goes out |
| `RoutingEditor.RoutingEditor.OnTabDiscard` | static/app-routing-channels.js:217-224 | both sections are clean and owe a forced reload |
| `RoutingRuns.CleanFormsAreConfirmed` | static/app-routing-topics.js:73-124 | in every interleaving a section is dirty, owes a forced reload, or shows exactly what was taken over from the server last |
| `RoutingRuns.AppliesIff` | static/app-routing-topics.js:111-112 | a payload that arrives is applied if and only if it is from the newest load and neither an edit nor a save has started since that went out |
| `RoutingRuns.CleanFormsShowTheLastAnswer` | static/app-routing-topics.js:97-238 | a section that is neither dirty nor owes a reload shows the server's last answer, unless that was the payload of an overtaken load |
| `RoutingRuns.EditsSurvive` | static/app-routing-topics.js:97-238 | unsaved work goes only by the user's hand, by a save that stored this form but for its nameless rows, or by a load for which a forced reload or a tab discard was asked after the last edit |
| `RoutingRuns.AppliedLoadsAreCurrent` | static/app-routing-channels.js:64-89 | a load that is applied is the newest; no edit came after it, no save was under way when it went out and none has started since |
| `RoutingRuns.UndisturbedLoadApplies` | static/app-routing-topics.js:97-118 | from any reachable state without a save, a forced load that nothing comes in between of is shown |
| `RoutingRuns.UndisturbedSaveCleans` | static/app-routing-topics.js:173-238 | a save that nothing comes in between of submits the named rows of the form, cleans it and starts the reload that was owed |
| `RoutingRuns.SavesKeepNewerEdits` | static/app-routing-channels.js:118-161 | a save whose answer is taken over stored what the form shows, but for nameless rows, and otherwise the newer edit keeps form and mark |
| `RoutingRuns.SavesSendNamedRows` | static/app-routing-topics.js:185-187 | in every run a save sends exactly the named rows of the form it was made of, position by position, and of the form shown while nothing is edited |
| `RoutingRuns.OneSaveAtATime` | static/app-routing-topics.js:173-179 | a save starts exactly when none is under way and no batch is, unless it is the batch's own |
| `RoutingRuns.FailedSaveKeepsForm` | static/app-routing-topics.js:192-233 | a failed save leaves form and mark as they are and the section open to another save, and a reload that is owed goes out |
| `RoutingRuns.OwedReloadGoesOut` | static/app-routing-topics.js:97-238 | a forced reload that is asked for during a save goes out when that is over, however it ends |
| `RoutingRuns.EditCancelsReload` | static/app-routing-topics.js:73-83 | after an edit the section owes no reload |
| `RoutingRuns.PlainLoadSparesEdits` | static/app-routing-topics.js:103 | a load that is not forced asks for nothing while there is unsaved work and no reload is owed |
| `RoutingRuns.DiscardIsReloaded` | static/app-routing-channels.js:217-224 | after a tab discard the section is clean, and the next load goes out and is shown |
| `RoutingRuns.AdoptedSaveStoresAllIff` | static/app-routing-topics.js:185-210 | in every run, a save whose answer is taken over stored all that the form shows if and only if every row has a name |
| `RoutingRuns.AdoptedSaveShowsAllIff` | static/app-routing-topics.js:205-210 | when the server answers with the topics it was sent, the form is clean and shows all rows it had if and only if each of them had a name |
| `RoutingRuns.NamelessTopicIsLost` | static/app-routing-topics.js:166-210 | a topic that was added with a token but no name is gone after the save, and the form is clean |
| `Inhibition.InhibitionList.CleanupExpired` | src/inhibition.rs:19-22 | exactly the unexpired entries stay, in order |
| `Inhibition.InhibitionList.RegisterSuppression` | src/inhibition.rs:32-64 | the entry for the rule and anchor goes, and a firing puts a new one at the end; an unknown rule or missing label changes nothing |
| `Inhibition.InhibitionList.IsSuppressed` | src/inhibition.rs:66-110 | expired entries go, and the first entry that decides gives the answer; HeldByIff says what it decides |
| `Inhibition.InhibitionList.ApplyInhibition` | src/inhibition.rs:112-144 | source alerts pass and arm the list unless it is a dry run; others pass exactly when neither an acknowledgement, a schedule nor an entry holds them back |
| `Inhibition.AlertIsSource` | src/inhibition.rs:24-30 | the first rule whose source the alert carries, if any |
| `InhibitionRuns.RunInv` | src/inhibition.rs:19-144 | after every trace of incoming alerts and cleanups the list is justified by the trace and ordered by it |
| `InhibitionRuns.ActiveIffFiring` | src/inhibition.rs:19-64 | a rule and anchor are suppressed if and only if the last alert accepted for them, from the rule's source and with its anchor label, was a firing less than the TTL ago |
| `InhibitionRuns.OnePerKeyInOrder` | src/inhibition.rs:50-57 | there is at most one entry per rule and anchor, in the order of their last alerts |
| `InhibitionRuns.HeldByIff` | src/inhibition.rs:66-110 | after every trace the holder of an alert is the source of the first rule and anchor, by their last alerts, that is firing, applies to the alert's source, matches all or its label or its pattern, with none of the alert's own source firing since before |
| `InhibitionRuns.DeliveredIff` | src/inhibition.rs:112-144 | after every trace an alert is delivered if and only if it is a rule's own, or no acknowledgement, no schedule and no such rule and anchor holds it back |
| `OidcCache.ProviderCell.ClientFor` | src/auth/oidc_client.rs:15-40 | what is returned is what the cell then serves for this generation and configuration; a refusal leaves the cell alone |
| `OidcCache.ProviderCell.CachedClientFor` | src/auth/oidc_client.rs:42-57 | only an entry of this generation and configuration answers |
| `OidcCache.ProviderCell.StoreRefreshed` | src/auth/oidc_client.rs:110-121 | a refresh replaces the client only if entry and live generation are still those it started from |
| `OidcCache.StepsAreClientFor` | src/auth/oidc_client.rs:19-40 | entering and, if needed, discovering or failing leave the cell and the answer of that function |
| `OidcCache.LockedCellStays` | src/auth/oidc_client.rs:20-38 | while a call waits for discovery under the lock, nothing else changes the cell |
| `OidcCache.ReturnedClientFits` | src/auth/oidc_client.rs:15-122 | in every interleaving a returned client was discovered from exactly the requested configuration, by a finder whose generation was current at some moment of the call |
| `OidcCache.PreparedClientIsServed` | src/auth/oidc_client.rs:15-57 | from an idle state without an entry of this generation, a prepared client is returned and then served from the cache |
| `OidcCache.RefusedIff` | src/auth/oidc_client.rs:21-31 | in every interleaving a prepare call is refused without discovery if and only if the entry of its generation goes back to a call that asked for another configuration |
| `OidcCache.LiveCallRefusedIff` | src/auth/oidc_client.rs:19-38 | a call for the live setting is refused if and only if that entry goes back to a request under an older setting, or without a public URL for another host |
| `OidcCache.OlderSettingCases` | src/state.rs:156-169 | the call has loaded the generation of its setting, and the older request began before it, or the call began in the window between the write and the bump |
| `OidcCache.BlockedUntilBumpIff` | src/auth/oidc_client.rs:15-57 | while the current generation has an entry for another configuration, no new call for the live one is answered before a bump if and only if no call under way has loaded an earlier generation |
| `OidcCache.OldRequestBlocks` | src/auth/oidc_client.rs:19-38 | an old request prepared after a change blocks the live setting |
| `OidcCache.WindowRefuses` | src/state.rs:156-169 | between the write and the bump a request for the new setting is refused although the entry is in order |
| `OidcCache.OtherHostBlocks` | src/auth/login.rs:172-199 | without a public URL the first host prepared blocks every other one, with no change of configuration |
| `OidcCache.RefreshRenews` | src/auth/oidc_client.rs:92-121 | an undisturbed refresh gives the entry a newly discovered client for the same configuration |
| `OidcCache.LateRefreshIsDropped` | src/auth/oidc_client.rs:110-121 | the client of a refresh is dropped when the generation has moved or the entry is for something else by then |
| `AuthSidecar.NormalizeAuthConfig` | src/config/auth_sidecar.rs:119-134 | the result is the normal form, and the flag says exactly whether anything changed |
| `AuthSidecar.NormalIsStable` | src/config/models/auth/behavior.rs:68-81 | normalising twice changes nothing more |
| `AuthSidecar.NormalMeans` | src/config/auth_sidecar.rs:119-134 | a legacy demand for a passkey becomes a required passkey, an unknown factor the passkey, the old callback path the new one; every other step-up setting and field stays, and the issuer loses only the spaces around it |
| `AuthSidecar.SetIff` | src/config/auth_sidecar.rs:24-55 | a variable counts exactly if it has a character that is no space |
| `AuthSidecar.LoadMeans` | src/config/auth_sidecar.rs:6-55 | when a load succeeds, and what it gives: the three fields as their variables say exactly when set, everything else as the normalised file or seed says |
| `AuthSidecar.CidrsUsableIff` | src/config/auth_sidecar.rs:37-52 | a set variable for the networks is of use exactly if no part of it is invalid and some part is not blank, and then gives the networks named |
| `AuthSidecar.NetworksConcat` | src/config/auth_sidecar.rs:38-48 | the networks of a list are those of its parts in order, and one invalid part spoils it |
| `AuthSidecar.SaveMeans` | src/config/auth_sidecar.rs:57-93 | when a save succeeds, and what it writes: a field whose variable is set keeps the file's value, or stays empty or at its default without a file, so that nothing from the environment is written |
| `AuthSidecar.AuthFile.SaveAuth` | src/config/auth_sidecar.rs:57-93 | an overridden field keeps the file's value, or a default without a file; everything else is written |
| `AuthSidecar.AuthFile.LoadAuth` | src/config/auth_sidecar.rs:6-22 | the file is read or seeded, normalised, saved if that changed it, and overridden by the environment |
| `AuthSidecar.OverriddenFieldsStay` | src/config/auth_sidecar.rs:6-93 | no sequence of loads and saves, each in its own environment, changes a field of an existing file whose variable is set for each of them, whatever its values |
| `AuthSidecar.LoadAfterSave` | src/config/auth_sidecar.rs:6-93 | loading after saving gives back every normalised configuration that carries the environment |
| `AuthSidecar.LoadIsFixpoint` | src/config/auth_sidecar.rs:6-55 | what a load gives is normalised and carries the environment, and saving and loading it again changes neither it nor the file |
| `TotpReplay.SettingsNode.ConsumeBasicTotp` | src/auth/totp_replay.rs:6-22 | a counter is accepted only if it is above the last one and was saved; a refusal or a failed save changes nothing in memory |
| `TotpReplay.SettingsNode.PersistTokenLastUsed` | src/auth/tokens.rs:73-94 | the last-used writer changes its own field, and only after it was saved |
| `TotpReplay.NoCounterTwice` | src/auth/totp_replay.rs:6-22 | over logins, token uses, failed saves, crashes and restarts, accepted counters strictly increase and each was on disk first |
| `TotpReplay.AcceptedIffAboveDisk` | src/auth/totp_replay.rs:14-20 | in every reachable state a counter that can be saved is accepted if and only if it is above the one on disk |
| `TotpReplay.DiskNeverForgets` | src/auth/tokens.rs:67-94 | no writer takes the counter on disk back |
| `TotpReplay.AcceptedIsSpent` | src/auth/totp_replay.rs:14-20 | an accepted counter is the one on disk and in memory, nothing else in memory changes, and no counter up to it is accepted again |
| `TotpReplay.RefusedChangesNothing` | src/auth/totp_replay.rs:6-22 | a wrong code, or one whose save fails, changes nothing |
| `TotpReplay.TokenUseIsWrittenIff` | src/auth/tokens.rs:67-94 | the use of a token is written exactly if it was never used or a minute has passed since the last use that was, and changes no other token |
| `Paging.RingLog.Push` | src/log_buffer.rs:70-108 | the ring holds the last entries stored; an entry that meets a reader takes an id but is not stored |
| `Paging.RingLog.Record` | src/audit.rs:23-37 | the audit ring holds the last entries recorded |
| `Paging.RingLog.PushAll` | src/log_buffer.rs:70-108 | after any number of pushes the ring holds exactly the last entries stored, up to its capacity |
| `Paging.MatchingIs` | src/log_buffer.rs:114-121 | the result holds exactly the entries that pass |
| `Paging.MatchingConcat` | src/log_buffer.rs:114-121 | the matches of what was pushed later come before the matches of what was pushed earlier |
| `Paging.PagesAreAPrefix` | src/log_buffer.rs:113-124 | the pages at offsets 0, limit, 2*limit and so on give the result in order without gap or repeat |
| `Paging.PagesCoverResult` | src/audit.rs:41-70 | all pages together are the whole newest-first result, for any filter and limit |
| `Paging.LargeOffsetGivesLastPage` | src/log_buffer.rs:217-223 | an offset beyond the last page gives the last page, which is not empty |
| `Paging.PageIs` | src/log_buffer.rs:113-124 | a page has the entries from its offset, or from the start of the last page, on, as many as a limit between 1 and 500 allows |
| `Paging.LastIs` | src/log_buffer.rs:70-108 | the ring's view of a list are its newest entries in order, up to the capacity |
| `Paging.PagesHaveRows` | static/table-pager.js:109 | every page has a row and the pages have all rows; without rows there is one page |
| `Paging.ClampedPageShowsRow` | static/table-pager.js:109-112 | whatever page is asked for, the one shown has a row; too large a number shows the last row's page, a valid one its own |
| `Paging.TablePager.ApplyTablePager` | static/table-pager.js:85-116 | exactly the rows of the clamped current page are shown, or all rows when they fit |
| `Paging.TablePager.ShowTableRowPage` | static/table-pager.js:134-143 | the pager lands on the one page that shows the row |
| `CsvExport.DownloadCsv` | static/app-deliveries-csv.js:51-72 | the loop builds the header line and one line per row, each ended by CRLF |
| `CsvExport.ReadCell` | static/app-deliveries-csv.js:20-24 | reading a written cell gives exactly that cell, whatever characters it has |
| `CsvExport.QuotedIff` | static/app-deliveries-csv.js:20-24 | a cell is quoted exactly if it has a comma, a quote or a line break in it |
| `CsvExport.ExportReadsBack` | static/app-deliveries-csv.js:51-72 | a reader for section 2 of RFC 4180 gets back the header and exactly the rows written |
| `CsvExport.ExportIsInjective` | static/app-deliveries-csv.js:51-72 | two exports with the same text have the same rows |
| `RuleMatch.ParseRuleMatch` | static/app-delivery-editor.js:119-137 | the loop gives the table, or the first problem with its line number |
| `RuleMatch.ParseMeans` | static/app-delivery-editor.js:119-137 | the table has exactly the pairs that the lines say when none is nonsense and no key stands twice; else the answer names the first line where that fails, or says that all are blank |
| `RuleMatch.PrintThenParseIff` | static/app-delivery-rules.js:37 | a table survives printing and parsing, in any order of its keys, if and only if it is not empty and its keys and values are non-empty, trimmed, on one line, and the keys without '=' |
| `RuleMatch.AcceptedSurvives` | static/app-delivery-editor.js:119-137 | every table that the editor accepts is shown as a text that means the same |
| `RuleMatch.CollectValidRules` | static/app-delivery-rules.js:126-142 | all rows parse and are returned in order, or none is and the complaint is about the first row that fails |
| `RuleMatch.ShownRulesAreCollected` | static/app-delivery-rules.js:25-37 | collecting an untouched table gives the rules it was filled from |
| `Base64Url.SextetsThenBytes` | static/app-http-webauthn.js:10-15 | splitting bytes into sextets loses nothing |
| `Base64Url.BytesThenSextets` | static/app-http-webauthn.js:1-9 | joining sextets loses nothing unless bits are left over |
| `Base64Url.CompletionCompletes` | static/app-http-webauthn.js:2-4 | the computed padding always completes a multiple of four |
| `Base64Url.DecodeNoPadIff` | src/util.rs:28-30 | the unpadded decoder accepts exactly the encodings |
| `Base64Url.DecodeIff` | src/util.rs:28-33 | the gateway reads an encoding, padded or not, as the bytes it was made from, and reads nothing else |
| `Base64Url.BrowserReadsWhatGatewayReads` | static/app-http-webauthn.js:1-9 | whatever the gateway accepts the browser reads as the same bytes |
| `Base64Url.RoundTrip` | static/app-http-webauthn.js:1-15 | every byte array survives encoding and either decoder |
| `Base64Url.GroupValue` | static/app-http-webauthn.js:10-15 | three bytes and the four sextets they become are the same 24-bit number |
| `Base64Url.KnownTexts` | src/util.rs:28-33 | a test vector of RFC 4648, and the two symbols in which its alphabets differ |
| `Base64Url.AtobSkipsSpaces` | static/app-http-webauthn.js:5 | each of the five blanks makes no difference to atob wherever it stands |
| `Base64Url.OnlyBrowserReadsIff` | static/app-http-webauthn.js:1-9 | of the texts that the browser reads the gateway refuses exactly those with a blank, a '+' or a '/', with '=' signs that do not complete them, or with bits left over |
| `Base64Url.BrowserIsLaxer` | static/app-http-webauthn.js:1-9 | "AB" is such a text: the browser drops its left-over bits, the gateway refuses it |
| `Base64Url.BufferToB64url` | static/app-http-webauthn.js:10-15 | the browser's loop, btoa and replacements give the unpadded base64url text of section 5 of RFC 4648 |
| `Base64Url.B64urlToBuffer` | static/app-http-webauthn.js:1-9 | the loop fills the buffer with what atob gives, and throws when atob does |
| `SignedToken.SignedTokenVerifiesIff` | src/emergency.rs:144-172 | verifying a signed token returns its receipt if and only if that is not empty and the expiry is not before now |
| `SignedToken.VerifyIff` | src/emergency.rs:156-172 | a token verifies exactly when it is the text of some bytes followed by its own keyed hash and the claims in them are good |
| `SourceSlug.ValidIngestSourceSlug` | src/config/ingest.rs:56-65 | the loop over the bytes decides the byte test |
| `SourceSlug.PatternIsScan` | static/app-routing-ingest.js:136 | the pattern of hyphen-joined groups accepts exactly what a left-to-right scan accepts |
| `SourceSlug.RecognisersAgree` | src/config/ingest.rs:56-65 | for every string the byte test on its UTF-8 form and the console's pattern with its length bounds agree |
| `EmergencyTimeline.RenderTimeline` | static/app-emergencies-core.js:220-256 | for every interval, zero and negative ones included, the list has exactly the milestones, sorted by time |
| `EmergencyTimeline.BeforeExpiryIff` | static/app-emergencies-core.js:226-229 | an attempt is before expiry exactly when its index is below the rounded-up quotient |
| `EmergencyTimeline.PossibleAttemptsCounts` | static/app-emergencies-core.js:226-229 | the number shown is the number of attempts below the maximum that happen before expiry |
| `EmergencyTimeline.MilestonesBeforeExpiry` | static/app-emergencies-core.js:233-250 | every escalation and the limit lie strictly before expiry |
| `EmergencyTimeline.MilestonesAre` | static/app-emergencies-core.js:226-250 | the list has the start, each enabled escalation whose attempt exists and is before expiry, the last attempt if that is before expiry, and the expiry, at their times, and nothing else |
| `EmergencyTimeline.TiesKeepOrder` | static/app-emergencies-core.js:251-256 | points at the same time stay in the order in which they were collected |
| `EmergencyTimeline.TimelineShape` | static/app-emergencies-core.js:230-256 | the list shows every milestone in order and ends at expiry, and starts at 0 if and only if every escalation shown counts from one |
| `EmergencyTimeline.StartsBeforeZero` | static/app-emergencies-core.js:233-250 | an escalation set to happen after no attempt is drawn one interval before 0, and the list starts before 0 |

## Left out

- QueryClient: URLs, keys and TTL rules are parameters; the copy made of cached objects, and so aliasing of payloads, is not modelled; `toUpperCase` is ASCII only.
- QueryRuns: aborting the previous controller only shows as data of the issued request; that the aborted request then fails is one of the possible rejections.
- DedupBuffer: the bypass rules are a given answer; items are numbers, so the dedup key, the rendered batch, the severity of a batch and its delivery are not modelled; nor is the time the lock is waited for.
- DedupRuns.NothingVanishes: assumes that removals succeed and that every restart tries to read the file; HandedOnceIff, over every run, and OrphansAreLost say exactly what it costs when they do not. Writes may fail in any way.
- DedupRuns: a crash inside a critical section is a crash before or after it with a write that brought nothing, so it has no event of its own.
- AuthStore: the statements of a login that revoke by other columns than the id take a predicate over the columns that no statement updates; the row counts that revocations return and the wording of errors are left out, and arithmetic does not saturate. The sessions that the concurrency limit revokes are such a predicate too: which ones they are is not modelled, and between sessions with equal last-use and creation times it can differ after a switch, since src/history/sqlite/session.rs:160 breaks the tie by row number, which an import renumbers, and src/history/postgres/session.rs:169 by id. Otherwise the PostgreSQL backend is not part of this model.
- SessionProbes.WhatIsSeenShows: assumes that no revocation lies in the future, and that some id is in neither store.
- AuthStore.SessionsActAlikeIff: an id stands for one session in all stores, as a random token or the keyed hash of a predecessor does while the key stays; a rotation that keeps family and creation time keeps the expiry, which src/auth/session/persistent.rs:128-149 does not if the session timeout is changed between a login and its rotation within one second.
- RateLimits: the limiter of addresses, which lives in memory and not in the store.
- HistoryRuns: one configuration writer at a time, which the lock of src/state.rs:181-201 gives its callers; an id that is inserted stands for the same session wherever it is held, see AuthStore.SessionsActAlikeIff; all operations read one clock, which never runs backwards.
- RoutingEditor: the save-all handler is left out, since its guard reads a variable that its module does not import; `captured` stands for what a batch collected earlier, and the runs submit the section's own draft. Handles stay text: that they are split, trimmed and lower-cased on collection is not modelled, nor are the channel fields' trimming, the default port and the secrets that are only sent when typed.
- Inhibition: regular expressions are an uninterpreted predicate; acknowledgements and schedules are parameters; the rule table is fixed during a run.
- OidcCache: discovery is an event that succeeds or fails; that a client is eventually available is not claimed. A request reads the OIDC settings and the public URL one after the other, the model reads them together; the URL is its origin without the trailing slash, and the scheme is part of the host.
- AuthSidecar: JSON and the TOML seed are values, a file that cannot be read or parsed is `Corrupt`; parsing of networks is a parameter.
- TotpReplay: computing the counter of a code, and enrolment, which resets it; the check of a possibly stale token record before the lock is taken.
- Paging: the contents of log entries, redaction and the filters' text matching, which are an arbitrary predicate; page numbers are exact integers.
- CsvExport: how fields become strings, and the encoding of the file; the reader takes every character but comma, quote, CR and LF as text, not only those RFC 4180 prints.
- RuleMatch: the `position` in messages and their wording; the text area's own newline normalisation; `__proto__` and other inherited names, since tables are plain maps.
- Base64Url: buffers are sequences of bytes, so views onto shared memory are not modelled.
- SignedToken: the keyed hash is an arbitrary function, and JSON is assumed to give back the printed fields; nothing is said about forging.
- EmergencyTimeline: times are real numbers rather than floating point, so a negative zero is a zero; fields that are not numbers, the labels and the HTML are left out.
- HTTP handlers, DOM rendering, dialogs, translations, the scheduler and store of emergencies, cron and acknowledgement matching, LDAP, WebAuthn and password hashing.
