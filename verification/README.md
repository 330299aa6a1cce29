# Verified model of the investigation core

This project models the parts of PocketCli whose correctness depends on more than one function or on more
than one process, and proves what they promise. Each module names the files it follows.

| modules | what they model |
|---|---|
| `Approvals`, `ApprovalsInvariant`, `ApprovalsTheorems` | one-shot approvals claimed by renaming a file, under any interleaving of callers |
| `RateHolds`, `RateHoldsInvariant`, `RateHoldsTheorems`, `RateHoldsGaps`, `RateHoldsSpacing`, `RateHoldsDelays`, `RateHoldsProgress` | "do not call before" instants, account identities and reader/writer locks shared by all processes |
| `Quotas` | delays computed from quota headers, in 64-bit arithmetic |
| `HttpCache` | the slotted cache of conditional GETs (section 13.1.2 and section 15.4.5 of RFC 9110) |
| `PageWalks`, `BranchGraphs`, `BranchDiff` | collectors that journal every step and are resumed after a crash |
| `Annotations`, `AnnotationTheorems`, `AnnotationRequests`, `AnnotationReopenings`, `AnnotationPages` | the event-sourced annotation store, its journal on disk within a session and across a reopening, and its pages |
| `Tokens`, `ContextCompression`, `Prompts` | token budgets |
| `Coverage`, `Dependencies`, `DependencyFacts` | observed coverage, dependency links and their counts |
| `DatasetHash`, `PublishedDatasets`, `JsonValues` | the canonical bytes of a published dataset |
| `Sorting`, `Wrappers` | values shared by the others |

Protocols between processes are state machines: a state, the steps that are enabled in it, runs of steps, an
invariant kept by every step, and results about all runs. Objects that the program updates in place are
classes whose methods state the new fields. Loops keep their loops.

## Findings

Where the code does not keep a promise on every input, the model keeps the code, shows a run or an input
that breaks the promise, and proves exactly when it is kept.

- A request that is stopped between storing its hold and copying it to the provider leaves a hold that an
  identity lookup does not wait for (`RateHoldsGaps.CutSaveLetsALookupThrough`; the exact condition is in
  `RateHoldsTheorems.LookupWaitsForEveryHold`).
- A request whose audit fails ends before its pacing, so the pause after it counts from its reservation, not
  from its start (`RateHoldsGaps.UnpacedSendIsNotSpaced`; the exact condition, on what is stored, is in
  `RateHoldsSpacing.PauseIsKeptExactlyWhenSecured`).
- An item that moves between two pages of the open walk is counted twice (`PageWalks.OpenWalkRepeatsAreKept`; the
  exact condition is in `PageWalks.MergeCountsOnce`).
- When the window ends between the two issues' tellings of a removal, the later telling of the addition is the
  newest event and the link of a removed edge is kept (`Dependencies.LateMirrorKeepsALink`; the exact condition is
  in `Dependencies.ShorterTellingMisleadsWhen`, and for every window in `Dependencies.WindowMisleadsWhen`).
- A failed save of an already cached response leaves the cache's size counter too small
  (`HttpCache.FailedSaveDrifts`, `HttpCache.Cache.Store`).
- After a failed sync the journal holds a record that memory lacks; after a record without its newline the
  next successful append makes the journal unreadable (`AnnotationTheorems.UnsyncedRecordResurfaces`,
  `AnnotationTheorems.OpenTailIsFatal`; the exact condition over whole runs is in
  `AnnotationTheorems.ReopenRebuilds`).
- A record whose sync failed keeps its number, and the next acknowledged record takes it again: after reopening,
  a past revision shows both (`AnnotationReopenings.UnsyncedRecordChangesThePast`; the exact condition is in
  `AnnotationReopenings.PastSurvivesReopening` and `AnnotationReopenings.PastAfterLostTail`).
- A cutoff of zero means "now", so the empty store's own revision cannot be asked for
  (`AnnotationTheorems.TimeTravel`).
- A dependency link with one readable bound that excludes the reference is reported as invalid or ambiguous
  (`DependencyFacts.AmbiguousMeans`).

## Model

| member | source | states |
|---|---|---|
| `ApprovalsTheorems.AtMostOnce` | internal/safety/safety.go:204-233 | In every interleaving of writes, calls, renames, loads, removals and deaths of any number of processes, no two calls are accepted for one token, also when a new approval overwrites a claimed file |
| `ApprovalsTheorems.AcceptedWasIssued` | internal/safety/safety.go:212-232 | Every accepted value is a token that was issued and had not expired when it was compared |
| `ApprovalsInvariant.StepKeepsInv` | internal/safety/safety.go:146-233 | Every file-system step of every process keeps the invariant: the files move forward only, a claimant presents nothing newer than its claim, each claim belongs to one call |
| `ApprovalsTheorems.UndisturbedCall` | internal/safety/safety.go:204-233 | An undisturbed call is accepted exactly when the stored token has the presented value and has not expired, and it always uses the approval up |
| `ApprovalsTheorems.WrittenIsAccepted` | internal/safety/safety.go:146-233 | A new approval that is written and then presented adds exactly one acceptance, of its own value, if and only if that value is presented and it has not expired; both files are gone afterwards |
| `ApprovalsTheorems.OverwrittenIsNeverAccepted` | internal/safety/safety.go:176-233 | The value of an approval that is overwritten before anybody claims it is not accepted in any continuation |
| `ApprovalsTheorems.ApprovalExpires` | internal/safety/safety.go:212-232 | Once its time has passed an approval is refused, and still used up |
| `ApprovalsTheorems.UnreadableIsRefused` | internal/safety/safety.go:219-224 | A call whose claimed file cannot be read accepts nothing and removes the file |
| `Approvals.ApprovalFiles.Approve` | internal/safety/safety.go:146-180 | Exactly which requests are accepted and which refusal the others get, failures of the random source and of the write included; a refused one leaves the approval as it was, an accepted one stores a token valid for the seconds asked for, from 30 to 900, or for 300 |
| `Approvals.ApprovalFiles.ConsumeApproval` | internal/safety/safety.go:204-233 | The verdict for a call on its own, for readable and unreadable claimed files and expiries; the approval and its claimed copy are gone afterwards whatever the verdict |
| `RateHoldsInvariant.StepKeepsInv` | internal/investigation/collect/client.go:133-335 | Every store access, lock, sleep, send, error and crash of every process keeps the protocol invariant |
| `RateHoldsInvariant.ProviderDominates` | internal/investigation/collect/provider_hold.go:57-92 | While the provider lock is held exclusively, by a process that is not copying a hold, the provider's hold is at least every stored hold that still runs and was not cut short |
| `RateHoldsInvariant.WriterIsAlone` | internal/investigation/collect/principal.go:124-150 | An identity lookup excludes every other request of the provider |
| `RateHoldsTheorems.LookupWaitsForEveryHold` | internal/investigation/collect/principal.go:165-240 | When a lookup is sent, nobody else uses the provider, and every other stored hold has expired exactly when those of saves that stopped before the provider's copy have |
| `RateHoldsTheorems.UninterruptedLookupIsSafe` | internal/investigation/collect/principal.go:165-240 | In runs where no process stops between its two puts, a lookup is sent only once every other stored hold has expired |
| `RateHoldsTheorems.HoldsNeverShrink` | internal/investigation/collect/ratehold.go:87-116 | From any state that keeps the invariant, no step of any process moves a stored hold or the provider's copy back |
| `RateHoldsTheorems.StoredInstantsAreMonotone` | internal/investigation/collect/ratehold.go:95-111 | The same between any two moments of a run |
| `RateHoldsTheorems.NoSaveIsLost` | internal/investigation/collect/ratehold.go:97-111 | A hold that was put is never overwritten by an earlier one, whatever others read before it |
| `RateHoldsDelays.AskedDelayIsKept` | internal/investigation/collect/client.go:255-318 | When a response asks for a delay and its request does not die before storing it: once the request is past the save the hold of its key runs at least that long, and from the response on every send under the key, by anybody, starts after it |
| `RateHoldsDelays.AskedDelayReachesTheProvider` | internal/investigation/collect/provider_hold.go:57-92 | Once the request is also past the copy, the provider's hold runs as long, unless the delay is over by then |
| `RateHoldsTheorems.MigrationKeepsTheHold` | internal/investigation/collect/principal.go:287-315 | Once a credential is bound, its own hold is not later than its account's, for good |
| `RateHoldsTheorems.SendsAreSpaced` | internal/investigation/collect/client.go:205-256 | Two sends under one key: the later starts after the pause counted from the earlier one's reservation, and, when that one was paced, from its start |
| `RateHoldsTheorems.AtMostFourSends` | internal/investigation/collect/client.go:176-334 | No request sends more than four times, counted send by send over the run |
| `RateHoldsTheorems.KeysAreExclusive` | internal/investigation/collect/ratehold.go:35-56 | Two requests never hold the lock of the same key |
| `RateHoldsGaps.CutSaveLetsALookupThrough` | internal/investigation/collect/ratehold.go:109-114 | A run in which a request stops between the two puts and a lookup is sent while the stored hold still runs |
| `RateHoldsGaps.UnpacedSendIsNotSpaced` | internal/investigation/collect/client.go:249-254 | A run in which a failed audit ends a request before its pacing, and the next request of the key leaves at the same instant |
| `RateHoldsSpacing.PauseIsKeptExactlyWhenSecured` | internal/investigation/collect/client.go:205-256 | In any reachable state, for the latest send under a key: every later send under the key, in every continuation, leaves after the pause counted from that send's start if and only if the pause is over, or nobody has read the key's hold and is about to send and the pause is stored in that hold; for a credential's own key the provider's hold counts too, as does the credential having been bound |
| `RateHoldsSpacing.StepKeepsGuarded` | internal/investigation/collect/ratehold.go:58-85 | Every step of every process keeps what makes later sends under a key wait |
| `RateHoldsSpacing.SomebodySends` | internal/investigation/collect/client.go:133-210 | From any reachable state, for the key of an account with a bound credential or of an unbound credential, there is a continuation in which a request sends under it as soon as the holds it waits for are over |
| `RateHoldsSpacing.LeavesAtOnce` | internal/investigation/collect/client.go:205-249 | A request that has read its hold can be on its way at the same instant, whoever holds the lock of the provider's hold |
| `RateHoldsProgress.HoldDecides` | internal/investigation/collect/ratehold.go:58-85 | A stored hold of more than thirty seconds gives the request up, a shorter one is waited for, a past one is not; nothing stored changes |
| `RateHoldsProgress.ShortHoldIsSleptThrough` | internal/investigation/collect/ratehold.go:58-85 | With a hold of at most thirty seconds a request that nobody stops gets past it at the instant it ends |
| `RateHoldsProgress.ProviderHoldDecides` | internal/investigation/collect/provider_hold.go:36-55 | The same three cases for a lookup and the provider's hold |
| `RateHoldsProgress.ShortProviderHoldIsSleptThrough` | internal/investigation/collect/provider_hold.go:36-55 | And a lookup gets past a short hold of the provider at the instant it ends |
| `RateHoldsProgress.RetrySendsAgain` | internal/investigation/collect/client.go:176-324 | An answered request that has sent fewer than four times can send again, at the instant its hold is over |
| `RateHoldsProgress.AnsweredSendsArePaced` | internal/investigation/collect/ratehold.go:118-124 | Whoever goes on after an answer has paid the pause of the send it answers: every later send under the key starts after the pause counted from that send's start |
| `RateHoldsProgress.KnownAccountIsNotLookedUp` | internal/investigation/collect/principal.go:165-175 | No lookup is sent for a credential whose account is known, whatever other processes found out while it waited |
| `RateHoldsProgress.AnsweredLookupBinds` | internal/investigation/collect/principal.go:223-242 | An answered lookup that nobody stops stores the binding to the account it names, after carrying the credential's hold over, and lets the lock go |
| `RateHoldsProgress.ContradictionBindsNothing` | internal/investigation/collect/principal.go:223-225 | An answer that contradicts the stored binding changes nothing that is stored |
| `RateHoldsProgress.AnsweredRequestLetsGo` | internal/investigation/collect/client.go:324-335 | An answered request can end at any time, and lets its locks go |
| `Quotas.Threshold` | internal/investigation/collect/ratehold.go:269 | The split computation is the quota share rounded up, positive and at most the limit |
| `Quotas.ThresholdFits` | internal/investigation/collect/ratehold.go:269 | For every 64-bit limit and every percentage from 1 to 100, no intermediate value overflows |
| `Quotas.QuotaReserveDelay` | internal/investigation/collect/ratehold.go:240-284 | The delay is the longest over exactly the buckets at or under their threshold, a minute standing for a missing reset |
| `Quotas.BucketDelays` | internal/investigation/collect/ratehold.go:240-284 | A bucket asks for a delay exactly when what is left is within the kept share and its refill is not due now; without a refill header it asks for a minute |
| `Quotas.RateLimitDelay` | internal/investigation/collect/ratehold.go:206-238 | The delay is the longest one that the response asks for, and a minute when it asks for none |
| `Quotas.RetryAfterSeconds` | internal/investigation/collect/ratehold.go:170-175 | A number of seconds becomes that duration, or the largest one when it does not fit; a negative one is refused |
| `Quotas.RetryAfterDelay` | internal/investigation/collect/ratehold.go:165-184 | The header asks for a wait exactly when it is a date or a number of seconds that is not negative, and the wait is never negative |
| `HttpCache.Cache.Load` | internal/investigation/collect/cache.go:166-197 | Whatever the slot collisions: an entry in memory is found; otherwise the slot answers when it holds a response saved under this key, and is an error when that response is damaged or out of bounds; an entry that is found was saved as a whole under this key, and the size counter stays exact |
| `HttpCache.Cache.SavedElsewhere` | internal/investigation/collect/cache.go:199-209 | A save by another process, of any key into any slot, keeps that, and takes the whole slot |
| `HttpCache.Cache.Store` | internal/investigation/collect/client.go:284-299 | After a successful store at most 32 MiB are counted and at most 128 entries kept; a failed save leaves the counter short by the replaced body unless memory was emptied first |
| `HttpCache.Cache.Admit` | internal/investigation/collect/client.go:289-298 | The counter moves by the difference of the two bodies, and disk changes in one slot only |
| `HttpCache.Cache.Discard` | internal/investigation/collect/client.go:163-173 | A cached answer that echoes the credential leaves memory and its slot, and the counter stays exact |
| `HttpCache.Cache.Get` | internal/investigation/collect/client.go:151-334 | Every request carries the entity tag that was found; at most four are made; all but the last got an answer that asks for another; the outcome follows from the last answer: a 304 is answered with the body saved together with the tag sent, a whole 2xx answer that does not echo the credential is served and kept, and every other answer gives its own error; only such bodies are saved; the size counter keeps its error or becomes exact, while a failed save leaves it exact or short by the body it did not replace |
| `HttpCache.Cache.Decide` | internal/investigation/collect/client.go:209-326 | What one answer leads to: another attempt exactly for no answer, a 304 to a plain request or a short wait before the fourth, and otherwise the outcome; a storable body is in memory afterwards |
| `HttpCache.FailedSaveDrifts` | internal/investigation/collect/client.go:289-296 | One failed save of a cached key leaves the counter one byte short of the bodies kept |
| `PageWalks.Store.Run` | internal/investigation/core/collect.go:281-334 | However sessions end, the journal holds the items of its first pages, each once and in order, its cursor names the next page, it is complete only at the end, and there are at most 20 pages |
| `PageWalks.Walk.JournalIsDetermined` | internal/investigation/core/collect.go:296-304 | Two journals of one chain with the same page count are equal, so crashes and resumptions leave no trace; a complete one extends every other |
| `PageWalks.Walk.LongChainStaysIncomplete` | internal/investigation/core/collect.go:293-333 | A chain with more than 20 pages is never complete |
| `PageWalks.Walk.CompleteMeansTheEnd` | internal/investigation/collect/client.go:500-515 | A complete journal holds all items up to the last page of the chain, or up to the first page with an item older than the cutoff |
| `PageWalks.Merge` | internal/investigation/core/collect.go:356-379 | The newer walk's items and then those of the open walk with no identifier or an identifier the newer walk does not have |
| `PageWalks.MergeCountsOnce` | internal/investigation/core/collect.go:356-379 | Nothing either walk saw is lost, the newer version of an item wins, an item seen by both walks is counted once, and each identifier is counted once if and only if neither the bounded walk nor the rest of the open walk repeats one by itself |
| `PageWalks.OpenWalkRepeatsAreKept` | internal/investigation/core/collect.go:370-379 | An item that appears on two pages of the open walk is counted twice |
| `BranchGraphs.EveryHeadIsChosen` | internal/investigation/core/git_branch_graphs.go:82-105 | With a fixed listing every pending head is chosen within ceil(n/3) completed rounds, whatever subset of fetches fails |
| `BranchGraphs.QueueDrains` | internal/investigation/core/git_branch_graphs.go:165-188 | When all fetches succeed the queue loses three heads a round until it is empty |
| `BranchGraphs.CollectPending` | internal/investigation/core/git_branch_graphs.go:87-98 | Pending are the listed heads other than the default one whose saved commit differs from the listed one or is missing |
| `BranchGraphs.TakeRotated` | internal/investigation/core/git_branch_graphs.go:100-105 | At most three heads are taken, in rotation order after the cursor |
| `BranchGraphs.SelectRound` | internal/investigation/core/git_branch_graphs.go:87-105 | The pending names nearest after the cursor, at most three, and all of them when fewer are selected; never the default head nor one that is up to date |
| `BranchGraphs.Queue.Collect` | internal/investigation/core/git_branch_graphs.go:76-191 | A round that stops anywhere is resumed from its journal with the same heads and nothing fetched is lost; putting the state advances the cursor and removes exactly the heads not fetched before; a rerun after the put keeps the cursor and every fetched graph |
| `BranchGraphs.Queue.OpenRound` | internal/investigation/core/git_branch_graphs.go:76-112 | A journalled round is taken as it is, a new one is selected from the current queue |
| `BranchGraphs.Queue.PutState` | internal/investigation/core/git_branch_graphs.go:183-188 | The put makes the fetched graphs and the end of the round the stored state, whether or not it was put before |
| `BranchGraphs.Queue.PlanRound` | internal/investigation/core/git_branch_graphs.go:76-188 | One uninterrupted round fetches the chosen heads that are available |
| `BranchGraphs.RunPlans` | internal/investigation/core/git_branch_graphs.go:47-190 | Consecutive plans run exactly the rounds that the fairness results speak of |
| `BranchDiff.EventsFoldToSaved` | internal/investigation/core/git_branches.go:116-156 | Folding the emitted events over the journalled map gives exactly the saved map, for complete and cut listings |
| `BranchDiff.SavedMeans` | internal/investigation/core/git_branches.go:112-157 | Every listed head is saved with the commit it is listed with; a head that is not listed is forgotten after a complete listing and keeps its commit after a cut one; nothing else is saved |
| `BranchDiff.EventsTell` | internal/investigation/core/git_branches.go:122-147 | An event is emitted for exactly the names that are new, changed, or gone from a complete listing, and it has the kind and the commits before and after |
| `BranchDiff.CutListingDeletesNothing` | internal/investigation/core/git_branches.go:147-153 | A cut listing emits no deletion |
| `BranchDiff.CompleteListingDeletes` | internal/investigation/core/git_branches.go:134-146 | A complete listing deletes exactly the heads it no longer mentions |
| `BranchDiff.RerunChangesNothing` | internal/investigation/core/git_branches.go:101-156 | A rerun from the same journal stores the same events under the same identifiers |
| `BranchDiff.StoppedRunIsMadeGood` | internal/investigation/core/git_branches.go:121-146 | A run that stopped after any number of its events leaves nothing that the rerun would not have stored |
| `BranchDiff.ListingMap` | internal/investigation/core/git_branches.go:109-115 | The listing becomes a map exactly when no head is named twice |
| `BranchDiff.Project` | internal/investigation/core/git_branches.go:109-153 | Events and saved map of every journal; absent exactly when a name is listed twice |
| `BranchDiff.Inventory.Collect` | internal/investigation/core/git_branches.go:101-156 | The first journal is kept; a run that stops anywhere among the events, or before the map is saved, stores exactly the events projected so far; a finished one saves the listed commits, and of the unlisted heads those of a cut listing alone |
| `Annotations.AttemptFollows` | internal/investigation/annotations/store.go:200-262 | Every event that a valid request makes has the next global revision and the next revision of its annotation, and keeps its snapshot |
| `Annotations.Store.Load` | internal/investigation/annotations/store.go:92-141 | Opening succeeds exactly when no whole line is corrupt and a torn tail can be put aside; memory is the replay of the records; a second opening agrees |
| `Annotations.Store.ApplyEvent` | internal/investigation/annotations/store.go:142-152 | The fields after an event are those of the replay |
| `Annotations.Store.Append` | internal/investigation/annotations/store.go:181-199 | What an append leaves on disk for each way it can end, and which of them is reported as success |
| `Annotations.Store.CreateAnnotation` | internal/investigation/annotations/store.go:200-218 | Each refusal exactly when the source gives it; an acknowledged creation adds one row with the request's investigation, snapshot, target, operator and trimmed text, unresolved at revision one, under the next global revision, and changes no other row |
| `Annotations.Store.UpdateAnnotation` | internal/investigation/annotations/store.go:219-242 | Each refusal exactly when the source gives it; an acknowledged edit changes one row: its text becomes the trimmed text, both revisions rise, and everything else about it stays |
| `Annotations.Store.ResolveAnnotation` | internal/investigation/annotations/store.go:243-262 | Each refusal exactly when the source gives it; an acknowledged resolution changes one row: it is resolved, both revisions rise, and its text and everything else stay |
| `Annotations.Store.At` | internal/investigation/annotations/store.go:154-180 | The result lists each annotation's latest version up to the cutoff once, ordered by target |
| `Annotations.Store.List` | internal/investigation/annotations/store.go:269-305 | A page is cut from the one listing of the wanted rows by global revision and identifier |
| `Annotations.StartAtMeans` | internal/investigation/annotations/store.go:287-295 | A cursor leads to the item after the one it names, and an unknown cursor to the beginning |
| `Annotations.ListingMeans` | internal/investigation/annotations/store.go:275-287 | A listing is the rows of the snapshot, or all rows without one, each once, by ascending global revision and identifier |
| `Annotations.TargetsInOrder` | internal/investigation/annotations/store.go:173-178 | A past revision is listed by the names of the target types, and within a type by target |
| `AnnotationPages.PageSize` | internal/investigation/annotations/store.go:272-303 | A page holds the number of rows asked for, and a hundred when that is not between one and a hundred |
| `AnnotationTheorems.ReopenRebuilds` | internal/investigation/annotations/store.go:92-127 | After any run, reopening rebuilds exactly the rows, versions and revision in memory if and only if the outcomes of the appends left disk and memory in step |
| `AnnotationTheorems.StepStands` | internal/investigation/annotations/store.go:181-199 | How each outcome of an append moves the relation between disk and memory |
| `AnnotationTheorems.CleanOutcomesStayInStep` | internal/investigation/annotations/store.go:181-262 | With appends that succeed or write nothing, reopening always rebuilds memory |
| `AnnotationTheorems.UnsyncedRecordResurfaces` | internal/investigation/annotations/store.go:194-197 | A record whose sync failed is reported as an error and is there after reopening |
| `AnnotationTheorems.OpenTailIsFatal` | internal/investigation/annotations/store.go:104-118 | An append that succeeds makes the journal unreadable if and only if the last record had no newline or was torn |
| `AnnotationTheorems.RunIsReplay` | internal/investigation/annotations/store.go:142-152 | After any run over any journal without deletions whose annotations stay in their snapshots, memory is the replay of what was loaded and acknowledged; it is numbered without gaps if and only if the loaded journal was |
| `AnnotationTheorems.AtIsReplay` | internal/investigation/annotations/store.go:154-180 | For every journal, a past revision equals the rows of replaying only the events up to it, deletions left out |
| `AnnotationTheorems.TimeTravel` | internal/investigation/annotations/store.go:154-180 | Within a session, over any such journal, also one with repeated numbers: the revision the store had after any prefix of the run still gives the rows of that moment; revision zero gives the present ones |
| `AnnotationTheorems.NoEditIsLost` | internal/investigation/annotations/store.go:219-262 | The acknowledged events of one annotation have ever higher revisions |
| `AnnotationRequests.RequestsAreARun` | internal/investigation/annotations/store.go:200-262 | Any sequence of creations, edits and resolutions with new identifiers is a run of the steps it makes, and keeps rows under their identifiers |
| `AnnotationRequests.LaterEditSawTheEarlier` | internal/investigation/annotations/store.go:219-262 | Of two acknowledged edits of one annotation, the later expected a revision at or after the one the earlier made |
| `AnnotationRequests.RequestLeaves` | internal/investigation/annotations/store.go:200-262 | What one acknowledged request, after any others, leaves of the rows it finds |
| `AnnotationRequests.EditStays` | internal/investigation/annotations/store.go:219-262 | The text of an acknowledged edit stays the row's text through any further requests until one about the same annotation is acknowledged; the same for a resolution |
| `AnnotationReopenings.RequestsAreASession` | internal/investigation/annotations/store.go:200-262 | Any sequence of requests whose new identifiers differ from those of every record loaded or tried before, also of records that memory lacks, meets what the results about sessions assume |
| `AnnotationReopenings.RecordsAfter` | internal/investigation/annotations/store.go:97-127 | A readable journal holds, after a run, its old records, then the whole lines the run wrote, acknowledged or not, then at most one record that memory lacks; only an unterminated record at its end can have been lost |
| `AnnotationReopenings.JournalAgain` | internal/investigation/annotations/store.go:92-127 | A journal that a run leaves readable has no deletions and keeps annotations in their snapshots again, and it holds nothing but records that were there or were tried, so time travel holds in the next session as well |
| `AnnotationReopenings.PastSurvivesReopening` | internal/investigation/annotations/store.go:154-199 | A reopened store, however long it has run since, gives every revision of the earlier session as it was if and only if no acknowledged append of that session came after a hidden record of another annotation |
| `AnnotationReopenings.PastAfterLostTail` | internal/investigation/annotations/store.go:104-118 | When the journal was opened with an unterminated record and a failed write then spoiled it, the revisions are given back if and only if that record said nothing new |
| `AnnotationReopenings.UnsyncedRecordChangesThePast` | internal/investigation/annotations/store.go:194-199 | A run of two creations, the first of them unsynced, after which revision one holds one annotation in memory and two after reopening, and two records have one number |
| `AnnotationPages.CursorLeadsOn` | internal/investigation/annotations/store.go:287-304 | The next cursor of a page leads to the item after the page, and is absent exactly on the last page |
| `AnnotationPages.ReadingIsCounting` | internal/investigation/annotations/store.go:287-304 | A reader who follows every next cursor sees the pages counted on by index, and no others |
| `Annotations.ListingIsUnique` | internal/investigation/annotations/store.go:276-286 | Map iteration order does not matter: there is one listing |
| `AnnotationPages.PagesVisitEveryItemOnce` | internal/investigation/annotations/store.go:269-305 | Following the cursors visits every wanted annotation once, ascending, in max(1, ceil(n/limit)) pages |
| `Tokens.ApproxTokens` | internal/contextcollector/collector.go:639-653 | The count is the number of longest runs without spaces |
| `Tokens.CountConcat` | internal/contextcollector/collector.go:639-653 | Joining two texts loses a token exactly when no space separates them |
| `Tokens.TrimKeepsTokens` | internal/backend/backend.go:355-361 | Trimming changes no count and empties exactly the texts without tokens |
| `Tokens.TrimMeans` | internal/backend/backend.go:355-361 | A trimmed text is what is left between the spaces around it |
| `Tokens.TruncateToTokens` | internal/contextcollector/collector.go:655-688 | The result is the text itself when it fits, and otherwise its first tokens, whole, with the spaces between them |
| `Tokens.CutIsUnique` | internal/backend/backend.go:421-454 | That describes one text only |
| `ContextCompression.TaskContext.TotalTokenCount` | internal/contextcollector/collector.go:585-625 | The loops count the tokens of all the texts put together: path, branch, readme, diff, log, last command and error, system, files, successful tool results and notes |
| `ContextCompression.TaskContext.ShrinkMainFile` | internal/contextcollector/collector.go:385-404 | On a context over the limit, the excerpt shrinks exactly when it has more than one token, and then to exactly what fits in 4000, or to one token |
| `ContextCompression.TaskContext.CutOnce` | internal/contextcollector/collector.go:332-356 | One turn of the loop cuts the first part that has something to give, and stops exactly at the floor |
| `ContextCompression.TaskContext.CutSession` | internal/contextcollector/collector.go:357-379 | The same for the last command and the last error, with the note about the tokens left |
| `ContextCompression.TaskContext.Compress` | internal/contextcollector/collector.go:329-383 | Ends for every context: at most 4000 tokens, or nothing left to cut; the turns are exactly the cuts described by CutStep, none of them made at 4000 tokens or fewer; what matters less goes first, only beginnings are kept, and the result says whether anything changed |
| `ContextCompression.CompressionIsUnique` | internal/contextcollector/collector.go:329-383 | The description of the turns fits one result |
| `ContextCompression.ExcerptFillsTheLimit` | internal/contextcollector/collector.go:392-397 | A cut excerpt that keeps more than one token leaves exactly 4000 tokens |
| `ContextCompression.DiffFillsTheLimit` | internal/contextcollector/collector.go:350-356 | The same for the diff |
| `ContextCompression.SessionFillsTheLimit` | internal/contextcollector/collector.go:357-376 | The same for the last command and the last error, but for the note about the cut |
| `ContextCompression.NotesRead` | internal/contextcollector/collector.go:418-420 | The text of the two notes |
| `ContextCompression.ItoaReadsBack` | internal/contextcollector/collector.go:418-420 | The number in a note can be read back |
| `ContextCompression.UpsertLeavesOne` | internal/contextcollector/collector.go:699-709 | An upsert leaves one note of its field and every other note in place |
| `ContextCompression.CutKeeps` | internal/contextcollector/collector.go:332-380 | Every cut keeps the order of priority and the notes truthful, and lowers a rank that notes do not enter |
| `Prompts.FitSections` | internal/backend/backend.go:191-222 | The three stages: the prompt has all tokens or exactly 4000, and each section is cut if and only if the more important ones leave it no room |
| `Prompts.BuildPrompt` | internal/backend/backend.go:179-223 | The same from the raw inputs: never more than 4000 tokens; the user section is cut iff system and user exceed 3999, the system section iff it has at least 3999 |
| `Prompts.SectionsShow` | internal/backend/backend.go:180-193 | The three sections are their title on a line and then the trimmed system prompt, context and input, each with its own stand-in when it has no tokens |
| `Prompts.SectionHasTwoTokens` | internal/backend/backend.go:355-361 | A rendered section has its title and at least one token more |
| `Coverage.IntervalsCover` | internal/investigation/analysisfacts/analysis.go:794-820 | True exactly when every instant of the window lies in some interval, in any input order; an empty window stands for its first instant |
| `Coverage.Judge` | internal/investigation/analysisfacts/analysis.go:485-513 | One collection of one resource: undecided exactly without a row or with a row that decides nothing, and then with the status of the first such row; otherwise well covered exactly when all rows are complete and cover the window instant by instant |
| `Coverage.RequiredCoverageStatus` | internal/investigation/analysisfacts/analysis.go:472-517 | Complete exactly when every resource and collection has rows, all complete, that cover the window instant by instant; whether it is partial does not depend on the order of the resources |
| `Dependencies.ParseEvents` | internal/investigation/core/github_dependencies.go:26-98 | Every event reports an entry inside the window: its edge joins the timeline's issue with another one and points from the blocked issue to its blocker, it has the entry's identifier and time, and it is active exactly for additions; the timeline is invalid exactly when an entry is unusable, among others for another repository's issue, and unless it is, every entry inside the window is reported; every dependency entry is counted |
| `Dependencies.MirrorsAgree` | internal/investigation/core/github_dependencies.go:59-95 | An entry and the other issue's entry of the same action, with an identifier and a time of its own, give the same edge and the same action |
| `Dependencies.Latest` | internal/investigation/core/github_dependencies.go:101-108 | Each edge keeps an event that no other event of the edge is later than, and that has the highest identifier among those of its time |
| `Dependencies.LatestIsOrderIndependent` | internal/investigation/core/github_dependencies.go:101-108 | Neither the order of the events nor repeated delivery matters |
| `Dependencies.ProjectEvents` | internal/investigation/core/github_dependencies.go:100-132 | Edges whose newest event is an addition have its link, and every other link stays |
| `Dependencies.LinkTells` | internal/investigation/core/github_dependencies.go:113-126 | A projected link is valid from the time of the newest event and names it as evidence |
| `Dependencies.LinksAreNewestAdditions` | internal/investigation/core/github_dependencies.go:100-132 | From a dataset that holds no link of the edge: the edge has a link exactly when its newest event by time and identifier is an addition |
| `Dependencies.EitherTimelineTellsTheLastAction` | internal/investigation/core/github_dependencies.go:15-16 | When one of the two issues' timelines, the other, or both deliver an edge's whole history, the newest event tells its last action |
| `Dependencies.LinkFollowsHistory` | internal/investigation/core/github_dependencies.go:100-132 | Then, from a dataset that holds no link of the edge, the link exists exactly when the last action is an addition |
| `Dependencies.ShorterTellingMisleadsWhen` | internal/investigation/core/github_dependencies.go:101-108 | When one timeline stops earlier, the newest event tells the last action told if and only if the shorter telling does not end later or ends with the same action |
| `Dependencies.WindowShortensATelling` | internal/investigation/core/collect.go:921-925 | A window end, itself outside the window, cuts both tellings of a history to their first actions |
| `Dependencies.WindowMisleadsWhen` | internal/investigation/core/github_dependencies.go:82-108 | For any window end: the newest event tells the last action told before the end if and only if the telling that is cut shorter does not end later or ends with the same action; there is no event exactly when neither telling has one before the end |
| `Dependencies.LateMirrorKeepsALink` | internal/investigation/core/github_dependencies.go:82-108 | A window that ends after one telling of a removal and not after the other keeps the link of a removed edge |
| `Dependencies.UpsertLink` | internal/investigation/core/collect.go:1121-1129 | One link per edge, the new one replacing the old |
| `DependencyFacts.GroupEligible` | internal/investigation/analysisfacts/analysis.go:519-526 | The groups are exactly the eligible links by pair, in bundle order |
| `DependencyFacts.GroupDiagnosed` | internal/investigation/analysisfacts/analysis.go:622-648 | The same for the blocked_by links that are not eligible |
| `DependencyFacts.Summary` | internal/investigation/analysisfacts/analysis.go:681-713 | The three counts are the eligible links, their pairs and their subjects |
| `DependencyFacts.EveryLinkIsCountedOnce` | internal/investigation/analysisfacts/analysis.go:519-713 | The counts of the dependency cases and the diagnostic cases add up to the number of blocked_by links, and the summary's links, pairs and subjects are those of the cases |
| `DependencyFacts.AmbiguousMeans` | internal/investigation/analysisfacts/analysis.go:631-644 | The reason "invalid or ambiguous" is given exactly for unreadable bounds and, besides, for a link with a single readable bound that simply does not hold at the reference |
| `DependencyFacts.HoldsAtReference` | internal/investigation/analysisfacts/analysis.go:769-792 | A link holds at the reference exactly when it was observed there or both its bounds are known, and the reference is at or after its start and before its end where it has them |
| `DependencyFacts.EveryReasonMeans` | internal/investigation/analysisfacts/analysis.go:631-644 | Every blocked_by link is either eligible or has the reason whose condition it meets |
| `DatasetHash.ValueSpan` | internal/investigation/core/dataset_hash_compat.go:56-68 | The value of a member is located exactly when it is a string with only blanks and tabs before it |
| `DatasetHash.PublishableMeans` | internal/investigation/core/dataset_hash_compat.go:36-73 | A snapshot is in published form exactly when the first member of each publication field is a string with only blanks and tabs before it |
| `DatasetHash.BlankedMeans` | internal/investigation/core/dataset_hash_compat.go:74-77 | Only the values of these members change, and they become empty strings |
| `DatasetHash.CollectSpans` | internal/investigation/core/dataset_hash_compat.go:36-73 | The spans are those of the first value of each publication field, and none is missing |
| `DatasetHash.Splice` | internal/investigation/core/dataset_hash_compat.go:74-77 | The reverse loop replaces every span, the last one first |
| `DatasetHash.SplicedIsBlanked` | internal/investigation/core/dataset_hash_compat.go:74-77 | Cutting the spans out of the text is printing the members with these values emptied |
| `DatasetHash.CanonicalBytes` | internal/investigation/core/dataset_hash_compat.go:14-80 | When it succeeds and which bytes are hashed, for every layout of the snapshot, with the fields "id", "dataset_hash" and "published_at" written out |
| `PublishedDatasets.PrintingIsInjective` | internal/investigation/core/dataset_hash_compat.go:11-13 | Printed fields can be read back in one way only |
| `JsonValues.ValuesAreClosed` | internal/investigation/core/dataset_hash_compat.go:11-13 | Every JSON value printed without spaces is one that the results about published datasets speak of, however deeply nested |
| `PublishedDatasets.CanonicalOfPublished` | internal/investigation/core/dataset_hash_compat.go:14-80 | For a published dataset the canonical bytes are those of the record printed with its three publication values empty |
| `PublishedDatasets.BlankRecordMeans` | internal/investigation/core/dataset_hash_compat.go:35-36 | The blanked record differs from the published one in the values of these three fields alone, which are empty strings |
| `PublishedDatasets.CanonicalBytesTellRecordsApart` | internal/investigation/core/dataset_hash_compat.go:74-79 | Two published datasets have the same canonical bytes if and only if they differ in nothing but these three values |

## Left out

- RateHoldsTheorems.SendsAreSpaced: the pause counts from the earlier send's start only once that send was paced; RateHoldsSpacing.PauseIsKeptExactlyWhenSecured says when it is kept for any send.
- RateHoldsSpacing.PauseIsKeptExactlyWhenSecured: for a credential's own key, says nothing of a state in which a request holds the key's lock without being about to send.
- Dependencies.EitherTimelineTellsTheLastAction: assumes that each timeline tells an edge's actions in their order, each newer than the one before.
- Annotations.AttemptFollows: random identifiers are assumed not to repeat among the rows.
- AnnotationReopenings.JournalAgain: random identifiers are assumed not to repeat among all records loaded or tried.
- AnnotationReopenings.PastSurvivesReopening: revision zero, the empty store's, asks for the present and is not spoken of.
- Dependencies.LinksAreNewestAdditions: a link that the dataset already holds is never removed, whatever the newest event says; the lemma and Dependencies.LinkFollowsHistory speak of datasets without one.
- PublishedDatasets.CanonicalBytesTellRecordsApart: speaks of compact printed records with distinct field names; other layouts are covered by DatasetHash.CanonicalBytes.
- Dependencies.LatestIsOrderIndependent: assumes that two events of one edge with the same time and identifier agree; events that do not would make the result depend on their order.
- HTTP, TLS, JSON decoding, git subprocesses, SQLite, clocks and random sources: their results are inputs. Decoding a snapshot yields its members with the bytes between them.
- Files are maps with atomic whole-file put, get, rename, append and remove; one clock is shared by all processes and never goes back.
- Hashes are injective, so a stored key is what was hashed, and keys joined from parts are told apart.
- Texts are sequences of valid runes; bytes that are not valid UTF-8 are not modelled. RFC 3339 strings are ordered values.
- Rate holds: clients that do not resolve accounts, the second wait for a client's own pause in memory, session deadlines, corrupt records of holds and the header details of which responses count as rate limited. A request may end in an error at any step, which covers their outcomes. Deadlock freedom is not claimed.
- Quotas: turning a reset header into a delay; its result is an input.
- HTTP cache: header fields other than ETag and Link, the length of retry delays, a slot that cannot be decoded, and how an echoed credential or a rate limit is recognised; a conditional request is a GET, so rate-limited answers with status 200 or 400, which only answer POST requests, do not occur.
- Approvals: one envelope; its file, command classification and path rules are left out because they are tables. Removing a claimed file is taken to succeed unless the process dies.
- Page walks: a fixed chain of pages and a fixed cutoff during the walk; request counts, transfer budgets and checkpoints appear as the outcomes of a step.
- Branch graphs and branch inventories: one plan at a time over one saved state; the observation of a graph itself, budgets and coverage rows are left out.
- Annotations: the texts of timestamps, and two processes over one journal.
- A record that shares its line with the bytes of an unterminated one is assumed not to parse.
- Dependencies: an evidence write that fails ends the projection early and is not modelled.
- Dependency facts: classification by state, objectives, legacy findings and commitments. The counts are those of the dependency case of each pair; a pair whose commitment has expired gets a second case with the same links (analysis.go:595-606), which is not modelled.
- Coverage of the report window, quantiles, cohorts and other metrics: single loops over tables.
- Capped buffers, log rotation, command lists, catalogue, router, memory scoring and user interfaces: they would only add easy members.
