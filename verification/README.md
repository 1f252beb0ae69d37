# CrowdPay: verified models

CrowdPay's backend promises things no single function shows: that migrations run exactly once however often the
runner is killed, that a retried request is not executed twice within a day, that a milestone is approved and paid once,
that a rate limit holds across window edges. These Dafny modules model the code that carries those promises and prove them,
for every input, every run and every interleaving the model has. `dafny verify dfyconfig.toml` checks the project.

Code that updates rows, keys or counters step by step appears twice: as a class whose methods run the statements in
the order the handler does, and as functions on the tables that those methods are proved against. The functions are
then the steps of a state machine in which any number of requests, workers and crashes interleave, and the main
results are statements about all its runs. Pure text code (printers, escapers, the CSV writer) appears as functions,
each with a reader that inverts it.

| module | subject |
|---|---|
| `Migrations`, `MigrationOutcome`, `MigrationRunner`, `MigrationProtocol`, `MigrationTheorems`, `MigrationRefinement` | the migration runner: lock, reload, hash check, one transaction per file |
| `StableJson`, `JsonRoundTrip`, `JsonText`, `RequestHash` | the canonical JSON printer, its second copy and the request hash |
| `Idempotency`, `IdempotencyReplay` | the claim, execute, persist and replay protocol |
| `MilestoneLifecycle`, `MilestoneProtocol`, `MilestoneTransitions` | every writer of milestone rows, manual approvals and the release worker included |
| `MilestonePayouts` | the manual approval and the worker paying the same milestones |
| `MilestonePlan` | milestone percentages in ten-thousandths |
| `CampaignQuery` | the campaign listing's facets compiled to SQL with numbered placeholders |
| `RateLimiter`, `DisputeHolds`, `RefreshTokens`, `TotpLockout`, `AnchorCallback` | smaller protocols |
| `SchemaCompare`, `Escaping`, `ActivityCsv` | snapshot comparison and text round trips |
| `Options`, `SetSizes`, `Sorting`, `Utf16` | shared definitions |

Where the code does not keep a promise outright, the model keeps the code and states the exact condition:

- Two executions under one idempotency key are a full TTL apart only if the INSERT does not lag behind the expiry
  computed before it (`Idempotency.GuaranteedGap`).
- An execution that outlives its key's lifetime and stores late under the same request hash replaces the response
  stored since (`IdempotencyReplay.LateFinisherOverwrites`); until then a retry is answered with the stored one
  (`IdempotencyReplay.StoredResponseIsReplayed`).
- `{ ...body }` turns an array into the object of its indices before hashing (`RequestHash.OnlyIndexObjectsCollide`).
- A milestone can be paid by an approval and by the release worker, but only through an attempt handed back to review
  although its envelope lands (`MilestonePayouts.PaidOnceOnLedger`, `MilestonePayouts.HandedBackMayBePaidTwice`); the
  tables show both exactly when a failed attempt of a claimed milestone is finalised (`MilestonePayouts.PathsApartIff`).
- A rate-limit counter that expires before a late INCR reaches it starts again at 1; counts are positions exactly in
  the runs where that never happens (`RateLimiter.ExactIffKept`).
- The deposit status poll submits contributions without the callback's claim; at most one unfailed handler of a deposit
  has submitted or is about to exactly while no two reads overlap (`AnchorCallback.AlwaysOneCommittedIff`).
- A refresh validated before a password reset and rotated after it brings an old session back
  (`RefreshTokens.ResetEndsOldSessions`), and a chain forks exactly when a rotation overtakes another of its tokens
  that is still open (`RefreshTokens.NeverForkedIff`; `RefreshTokens.RacingRefreshesFork` is such a run).
- Holding and releasing a queued refund erases its link to the dispute that queued it
  (`DisputeHolds.RaiseResolveIsIdentityIff`).
- A deadline facet that is finite but no 32-bit integer makes the listing fail, and so does a sort named like an
  inherited property of an object literal (`CampaignQuery.BuildListing`).
- The status report hides an edited migration whose name begins with a dot, which `up` refuses
  (`Migrations.StatusPredictsRefusal`).

## Model

| member | source | states |
|---|---|---|
| `Migrations.ListUpIsSortedDirectory` | backend/db/migrateLib.js:36-38 | the up-list names every up-migration of the directory once, in ascending UTF-16 order, and nothing else |
| `Migrations.ListUpForgetsReaddirOrder` | backend/db/migrateLib.js:36-38 | the up-list does not depend on the order in which the directory is read |
| `Migrations.ListingIsSorted` | backend/db/migrateLib.js:25-30 | each listing is the sorted, duplicate-free set of the names its filter keeps |
| `MigrationRunner.Connection.ApplyFiles` | backend/db/migrate.js:69-99 | the file loop: each new file's SQL and row are committed together, a bootstrap run records duplicates without running them, the first other failure stops it |
| `MigrationRunner.Connection.RunUp` | backend/db/migrate.js:46-124 | one `up` run nobody interrupts, on the tables alone: an edited or unsupported file changes nothing; otherwise the new rows carry the files' hashes and are the committed scripts, in ascending order and folded into the schema, plus, in bootstrap mode only, files whose SQL failed as duplicates; success records every file and reports the rows added; failure leaves unrecorded exactly the file whose SQL failed first |
| `MigrationOutcome.UpOutcome` | backend/db/migrate.js:57-99 | the same of the run as a function, for every engine, directory, mode and starting database |
| `MigrationRefinement.UpIsARunOfTheProtocol` | backend/db/migrate.js:46-124 | for every engine, directory, mode and starting database the uninterrupted run is one run of a single runner of the interleaved protocol, with the same result and the same database, failures and skips included |
| `MigrationRefinement.FailedRunIsRetried` | backend/db/migrate.js:85-97 | a failed run leaves the failing file to be retried: the same run again fails the same way and changes nothing |
| `MigrationRunner.Connection.RunStatus` | backend/db/migrate.js:126-167 | the report gives every visible file the status its name, row and hash call for, and its counts partition the rows |
| `Migrations.StatusPredictsRefusal` | backend/db/migrate.js:133-150 | `up` passes its checks exactly when the report is clean and no dot file, which the report hides, is an edited migration |
| `MigrationTheorems.ExactlyOnce` | backend/db/migrate.js:50-84 | over every interleaving of any number of runners with failures, crashes and lost acknowledgements of either COMMIT: no script takes effect twice, the schema is the fold of the committed scripts, and in strict mode the recorded names are exactly the initial ones plus the committed ones |
| `MigrationTheorems.OneRunnerPastTheLock` | backend/db/migrateLib.js:84-92 | at most one runner is past the advisory lock |
| `MigrationTheorems.ReportedCountIsRowsAdded` | backend/db/migrate.js:69-100 | a runner about to report success has recorded every file of its list and reports exactly the rows it added |
| `MigrationTheorems.AppliedIsPrefix` | backend/db/migrate.js:57-99 | with one file set and an empty start, what is applied is always a prefix of the sorted up-list, each row with its file's hash, and the schema is that prefix folded in order |
| `MigrationTheorems.SuccessEqualsOneUninterruptedRun` | backend/db/migrate.js:46-100 | any history of failed, crashed, repeated and concurrent runs in which one reported success leaves the database of one uninterrupted run |
| `MigrationTheorems.FurtherRunAppliesNothing` | backend/db/migrate.js:70-73 | after a successful run from any database, a further run of either kind succeeds with count 0 and changes nothing |
| `MigrationTheorems.SettledAfterSuccess` | backend/db/migrate.js:70-73 | once a runner has reported success no step of any runner changes the database |
| `MigrationTheorems.MismatchAppliesNothing` | backend/db/migrate.js:52-67 | while every launched release holds an edited recorded migration or an unsupported file, no interleaving changes the database and no runner succeeds |
| `JsonRoundTrip.ReadInvertsPrint` | backend/src/middleware/idempotency.js:9-16 | a reader of RFC 8259 sections 4 to 7, the number grammar of section 6 included, recovers the printed value, its members in ascending UTF-16 key order as section 3.2.3 of RFC 8785 asks |
| `JsonRoundTrip.PrintEqualIffSameValue` | backend/src/middleware/idempotency.js:9-16 | two JSON values print to the same text exactly when they are equal up to object key order at every depth |
| `JsonRoundTrip.CanonicalizeIsPrint` | backend/src/routes/embed.js:69-78 | the second copy of the printer computes the same text for every JSON value |
| `JsonText.StringText` | backend/src/middleware/idempotency.js:10-14 | a string prints between quotes, each unit spelled as JSON.stringify spells it: seven two-unit escapes, other controls and lone surrogates as `\u` with four lower-case digits, everything else as itself |
| `JsonText.PlainStringText` | backend/src/routes/embed.js:77-77 | a text without quote, backslash, control or lone surrogate prints as itself between quotes, slashes included |
| `JsonText.ArrayText` | backend/src/middleware/idempotency.js:11-11 | an array prints its items' texts between brackets, separated by commas and nothing else |
| `JsonText.ObjectText` | backend/src/middleware/idempotency.js:12-15 | an object prints key, colon and value once per key between braces, separated by commas, in ascending order of the keys' units |
| `JsonText.LexMeansBefore` | backend/src/middleware/idempotency.js:13-13 | the key order is by first differing unit, a proper prefix first |
| `JsonRoundTrip.EscapeReads` | backend/src/middleware/idempotency.js:10-14 | the string escapes, lone surrogates included, are undone by the reader of section 7 of RFC 8259 |
| `RequestHash.SameHashIff` | backend/src/middleware/idempotency.js:18-25 | with an injective hash, two requests hash alike exactly when verb, URL and prepared body agree, the body up to object key order |
| `RequestHash.WithoutKeeps` | backend/src/middleware/idempotency.js:20-20 | deleting the key field keeps exactly the members with another key |
| `RequestHash.DecimalDenotes` | backend/src/middleware/idempotency.js:19-19 | an index becomes the digits that denote it, without leading zeros |
| `RequestHash.ArrayCollidesWithIndexObject` | backend/src/middleware/idempotency.js:19-19 | the object spread makes every array body hash like the object keyed by its indices, whatever the key field |
| `RequestHash.OnlyIndexObjectsCollide` | backend/src/middleware/idempotency.js:18-25 | with any key field that is no array index, or none, bodies equal without the key hash alike, and unequal ones do exactly when one is an array and the other, without the key, is the object of its indices |
| `RequestHash.RouteFieldIsNoIndex` | backend/src/routes/contributions.js:73-73 | the key field the money routes configure is no array index |
| `Idempotency.IdempotencyKeys.Claim` | backend/src/middleware/idempotency.js:59-70 | the upsert claims exactly when there is no row or the row has expired, and then overwrites hash, reply and expiry |
| `Idempotency.IdempotencyKeys.Persist` | backend/src/middleware/idempotency.js:103-120 | the late UPDATE stores the reply only into a row of the same request hash |
| `Idempotency.IdempotencyKeys.Middleware` | backend/src/middleware/idempotency.js:58-93 | execute, replay, conflict and key-reuse are each answered exactly when the row says so, and only an executing request changes the table |
| `Idempotency.ReplaysComeFromTheSameRequest` | backend/src/middleware/idempotency.js:72-93 | over every interleaving of requests, late finishers and re-claims, a replayed response was produced by an execution of the same key and the same request hash |
| `IdempotencyReplay.NoReplyIsLost` | backend/src/middleware/idempotency.js:98-122 | in every reachable state a row without a reply belongs to an execution still running or storing, abandoned, or ended outside 200 to 599 |
| `IdempotencyReplay.ResponseIsPersisted` | backend/src/middleware/idempotency.js:99-103 | an answer of any status from 200 to 599, and no other, goes on to be stored |
| `IdempotencyReplay.OwnerFindsItsHash` | backend/src/middleware/idempotency.js:59-71 | in every reachable state the UPDATE of a key's latest execution finds its own hash in the row |
| `IdempotencyReplay.StoredResponseIsReplayed` | backend/src/middleware/idempotency.js:72-88 | from every reachable state, once an UPDATE has found its hash, a retry that does not claim the key is answered with exactly that execution's response, whatever happens in between, unless the key is claimed again or another execution of the same request stores after it |
| `IdempotencyReplay.LateFinisherOverwrites` | backend/src/middleware/idempotency.js:104-107 | an execution that stores late under the same hash replaces the stored response by its own |
| `IdempotencyReplay.RetryIsReplayed` | backend/src/middleware/idempotency.js:58-120 | a request answered with any status from 200 to 599, and its retry: one replay, of that response |
| `Idempotency.ExecutionsAreSpaced` | backend/src/middleware/idempotency.js:56-70 | a later execution of a key is claimed at least 86,400 s after the earlier one computed its expiry |
| `Idempotency.StalledClaim` | backend/src/middleware/idempotency.js:56-70 | an INSERT that runs some time after its expiry was computed lets the next claim in by that much early |
| `Idempotency.GuaranteedGap` | backend/src/middleware/idempotency.js:56-70 | two claims of one key are guaranteed a gap apart exactly when the gap is at most the TTL less the lag of the INSERT behind the computed expiry |
| `MilestoneLifecycle.MilestoneTables.SubmitEvidence` | backend/src/routes/milestones.js:405-440 | exactly a pending or rejected row goes to review, with the evidence and destination given, its automatic release scheduled if verified and never attempted, ineligible otherwise, untouched where not enabled; nothing else changes |
| `MilestoneLifecycle.MilestoneTables.RejectMilestone` | backend/src/routes/milestones.js:796-814 | exactly a reviewed row that is not releasing becomes rejected, awaiting evidence again where automatic release is enabled; nothing else changes |
| `MilestoneLifecycle.MilestoneTables.ConfigureAutoRelease` | backend/src/routes/milestones.js:622-659 | enabling stores the configuration on exactly a pending or rejected row; disabling clears the flag and cancels on exactly a row neither releasing nor released; nothing else changes |
| `MilestoneLifecycle.MilestoneTables.ReplaceCampaignPlan` | backend/src/routes/campaigns.js:786-815 | exactly when all the campaign's rows are pending they are dropped and fresh pending rows inserted, other campaigns' rows untouched |
| `MilestoneLifecycle.MilestoneTables.ClaimForApproval` | backend/src/routes/milestones.js:952-967 | the claim succeeds exactly on an unclaimed row under review |
| `MilestoneLifecycle.MilestoneTables.RecordRelease` | backend/src/routes/milestones.js:1040-1127 | the final write inserts one withdrawal and releases the row whatever its status, unless a withdrawal exists |
| `MilestoneLifecycle.MilestoneTables.AddMilestone` | backend/src/routes/milestones.js:264-290 | a new row is pending, unclaimed, without evidence, and carries the configuration given |
| `MilestoneLifecycle.MilestoneTables.ReviewByWebhook` | backend/src/services/webhookService.js:319-331 | exactly a reviewed row becomes approved or rejected |
| `MilestoneLifecycle.MilestoneTables.HaltScheduledReleases` | backend/src/services/milestoneAutoRelease.js:356-369 | exactly the campaign's scheduled releases become halted |
| `MilestoneLifecycle.MilestoneTables.ClaimDue` | backend/src/services/milestoneAutoRelease.js:423-509 | the worker claims exactly a scheduled, unclaimed, reviewed row never attempted before |
| `MilestoneLifecycle.MilestoneTables.FailAttempt` | backend/src/services/milestoneAutoRelease.js:545-571 | exactly a live attempt fails, and a row still under review is unclaimed and handed back |
| `MilestoneLifecycle.MilestoneTables.FinalizeRelease` | backend/src/services/milestoneAutoRelease.js:573-721 | an unconfirmed attempt, failed or not, of an unreleased row writes one withdrawal and releases it; a released row is only confirmed |
| `MilestoneTransitions.NextStatus` | backend/src/routes/milestones.js:405-433 | from every reachable state and for every step, the status a row has next, with every case that changes it |
| `MilestoneTransitions.NextColumns` | backend/src/routes/milestones.js:622-659 | likewise its claim, configuration, flag, evidence and destination |
| `MilestoneTransitions.ApprovedOnlyByWebhook` | backend/src/services/webhookService.js:319-331 | in every run a row is approved only by an approving webhook event |
| `MilestoneTransitions.RejectedMayResubmit` | backend/src/routes/milestones.js:409-421 | a rejected row accepts a new submission and goes to review with it |
| `MilestoneProtocol.OneManualPayoutPerMilestone` | backend/src/routes/milestones.js:949-1066 | over every interleaving of approvals, submissions, rejections, configuration, plan changes, disputes, webhooks and the release worker: per milestone at most one manual claim, at most one manual Stellar submission and at most one withdrawal row of either path, a manual row only after a manual submission |
| `MilestonePayouts.PathsApartIff` | backend/src/services/milestoneAutoRelease.js:573-721 | in any run a milestone is both claimed manually and paid by the worker exactly when at some step the worker finalised a failed attempt of a milestone claimed manually and not yet released |
| `MilestonePayouts.StepPathsApart` | backend/src/services/milestoneAutoRelease.js:580-594 | per step: from any reachable state, separation of the two paths is lost exactly by such a finalisation |
| `MilestonePayouts.PaidOnceOnLedger` | backend/src/services/milestoneAutoRelease.js:545-571 | while the worker hands back only attempts whose envelope never lands, every milestone is paid at most once on the ledger by either path, no landed release is ever claimed manually, and each withdrawal row names the path that paid |
| `MilestonePayouts.HandedBackMayBePaidTwice` | backend/src/services/milestoneAutoRelease.js:554-562 | the condition is needed: from any reachable state in which a landed release was handed back to review, a fresh approval may pay it again |
| `MilestonePayouts.BothPathsCanPay` | backend/src/services/milestoneAutoRelease.js:575-594 | such a state is reachable, for every rule configuration: both paths pay and one row is written |
| `MilestoneProtocol.ReleasedExactlyWhenPaid` | backend/src/services/milestoneAutoRelease.js:573-721 | in every reachable state a milestone is released exactly when its withdrawal row exists, by either release path |
| `MilestoneProtocol.ReviewedHasEvidence` | backend/src/routes/milestones.js:405-433 | every milestone that has left pending has evidence and a payout destination |
| `MilestoneProtocol.ReleasedIsFinal` | backend/src/routes/milestones.js:1113-1127 | released is never left |
| `MilestoneProtocol.ConfigFrozenUnderReview` | backend/src/routes/milestones.js:622-659 | rule, rule config and window do not change while a milestone stays under review or released |
| `MilestoneProtocol.FinalizeKeeps` | backend/src/services/milestoneAutoRelease.js:573-721 | the worker's finalisation keeps the table invariant and the one-way moves of every row |
| `MilestoneProtocol.AutoFailKeeps` | backend/src/services/milestoneAutoRelease.js:545-571 | a failed automatic attempt hands the row back to manual review, keeping the table invariant and the one-way moves of every row |
| `MilestonePlan.RoundingsAgree` | backend/src/routes/campaigns.js:269-270 | `toFixed(4)` and `Math.round(x * 10000)` agree and lie within half a unit of the exact percentage |
| `MilestonePlan.AcceptedPlans` | backend/src/routes/campaigns.js:251-287 | a plan is accepted exactly when it has at most five complete items with positive percentages whose roundings total 100%, and then the stored column totals exactly 100% |
| `MilestonePlan.FirstComplaint` | backend/src/routes/campaigns.js:247-285 | which complaint a plan is refused with: its size, its first incomplete item's first fault, or its total |
| `MilestonePlan.NormalizeItemsMeaning` | backend/src/routes/campaigns.js:251-278 | items are accepted exactly when each is complete; order, titles and totals are kept |
| `MilestonePlan.PlanTable.SavePlan` | backend/src/routes/campaigns.js:752-815 | a saved plan replaces all rows by one nearest rounding per item in order; a malformed plan is refused, one with a percentage that rounds to nothing fails, and both change nothing |
| `MilestonePlan.PlanTable.AddMilestone` | backend/src/routes/milestones.js:226-290 | one nearest rounding is appended exactly when the percentage, the count and the unrounded total allow it and it does not round to nothing; otherwise nothing changes |
| `MilestonePlan.AddKeepsBound` | backend/src/routes/milestones.js:240-290 | an addition checked against the unrounded percentage cannot lift the stored total over 100.001% |
| `MilestonePlan.EveryRunIsBounded` | backend/src/routes/campaigns.js:2334-2347 | over every run of creations, replacements and additions: at most five milestones, each a positive percentage of at most 100, totalling at most 100.001% |
| `MilestonePlan.BoundIsAttained` | backend/src/routes/milestones.js:255-258 | the bound is attained: 100% and then 0.001% are accepted |
| `CampaignQuery.BuildListing` | backend/src/routes/campaigns.js:422-543 | for every query string: the WHERE clause over its parameters, and over the page query's values, accepts a row exactly when the row meets every requested facet and fails exactly on a deadline window that is no 32-bit integer; placeholders are in range; LIMIT is the size asked for, 20 if absent, unreadable or zero, within 1 to 100; OFFSET is the offset asked for, 0 if absent, unreadable or negative; the order is the documented one |
| `CampaignQuery.PushFacets` | backend/src/routes/campaigns.js:425-487 | the filters and parameters pushed are those of the requested facets in order, and the remembered search position holds the search text |
| `CampaignQuery.WhereMeaning` | backend/src/routes/campaigns.js:425-487 | the conjunction of fragments evaluated in three-valued logic is true exactly when every facet is met |
| `CampaignQuery.FragmentMeaning` | backend/src/routes/campaigns.js:430-486 | each fragment, evaluated with its own placeholder, says what its facet asks; NULLs and a zero target do not match |
| `CampaignQuery.RequestedMeaning` | backend/src/routes/campaigns.js:434-487 | the facets pushed for a query string ask together exactly what the query string does |
| `CampaignQuery.FiltersInRange` | backend/src/routes/campaigns.js:425-487 | every placeholder of every pushed fragment names a bound parameter |
| `CampaignQuery.MoreValuesWhere` | backend/src/routes/campaigns.js:540-543 | appending limit and offset changes no filter's meaning, so the count and the page select the same rows |
| `CampaignQuery.ChooseOrder` | backend/src/routes/campaigns.js:494-512 | relevance ranks by the placeholder of the search text; explicit sorts win; unknown sorts are newest first; a name inherited from Object.prototype yields no ORDER BY expression |
| `RateLimiter.Redis.Limit` | backend/src/middleware/contributionRateLimiter.js:52-97 | an undisturbed request is let through exactly when both counters were below their limits, and both are bumped and re-expired whether or not it is |
| `RateLimiter.AcceptedIffAmongTheFirst` | backend/src/middleware/contributionRateLimiter.js:52-97 | over every interleaving of pipelines in which each INCR finds an untouched or a live counter, a request is accepted exactly when it is among the first 10 of its IP and the first 5 of its wallet in its minute |
| `RateLimiter.IntervalBound` | backend/src/middleware/contributionRateLimiter.js:52-97 | in the same runs any half-open 60 s interval accepts at most 20 requests of an IP and 10 of a wallet |
| `RateLimiter.ExactIffKept` | backend/src/middleware/contributionRateLimiter.js:59-66 | in any run, every count read is its request's position in the counter's log exactly when every INCR, of either counter, found an untouched or a live counter |
| `RateLimiter.PromptIsKept` | backend/src/middleware/contributionRateLimiter.js:59-66 | pipelines whose commands run before the window after their own ends are such runs |
| `RateLimiter.RunKeepsInv` | backend/src/middleware/contributionRateLimiter.js:59-66 | in those runs each counter equals the number of INCRs of its key |
| `RateLimiter.CountersLast` | backend/src/middleware/contributionRateLimiter.js:61-66 | in every run a counter expires no earlier than two windows after its own began |
| `RateLimiter.LoggedOnce` | backend/src/middleware/contributionRateLimiter.js:59-66 | no request counts twice against one counter |
| `RateLimiter.CountIsPositionIffUnexpired` | backend/src/middleware/contributionRateLimiter.js:59-66 | an INCR of either counter reads its request's position exactly when the counter is untouched or has not expired under it |
| `RateLimiter.LateRequestIsMiscounted` | backend/src/middleware/contributionRateLimiter.js:59-66 | however many requests a minute has seen, one more whose pipeline runs two windows late finds the counter expired and is accepted |
| `DisputeHolds.DisputeTables.Raise` | backend/src/routes/disputes.js:92-132 | raising inserts the dispute and holds exactly the campaign's pending withdrawals for it, or leaves no trace |
| `DisputeHolds.DisputeTables.Patch` | backend/src/routes/disputes.js:333-500 | a status change refunds the raiser's unrefunded contributions or un-holds the dispute's own withdrawals, in one transaction |
| `DisputeHolds.DisputeTables.Decide` | backend/src/routes/disputes.js:668-870 | an open dispute is decided once: its withdrawals are un-held, or the paid refunds are recorded |
| `DisputeHolds.HeldNamesItsDispute` | backend/src/routes/disputes.js:114-120 | in every serialised run a withdrawal on hold names a dispute of its own campaign, and no two rows name one contribution |
| `DisputeHolds.OnlyItsDisputeReleases` | backend/src/routes/disputes.js:489-497 | a held row changes only when its own dispute is resolved for the creator, and then becomes pending without a dispute |
| `DisputeHolds.RaiseThenResolve` | backend/src/routes/disputes.js:832-839 | raising, any run that does not resolve the dispute for the creator, then resolving it so: exactly the rows pending at the raise return to pending and no other row changes |
| `DisputeHolds.RaiseResolveIsIdentityIff` | backend/src/routes/disputes.js:114-120 | raising and resolving at once restores every row exactly unless a held row was a queued refund, which loses its dispute |
| `DisputeHolds.RulingRefundsOnce` | backend/src/routes/disputes.js:409-464 | a ruling for the contributor leaves each of their contributions named by exactly one row, and repeating it adds none |
| `RefreshTokens.TokenTable.Refresh` | backend/src/routes/auth.js:880-894 | a refresh with nothing in between succeeds exactly on a live token, revokes it and creates its successor |
| `RefreshTokens.TokenTable.RevokeAll` | backend/src/routes/auth.js:1002-1006 | a reset revokes every token of the user |
| `RefreshTokens.OnlyLiveTokensValidate` | backend/src/routes/auth.js:201-214 | a refresh begins exactly for a token that exists, is not revoked and has not expired |
| `RefreshTokens.TableSteps` | backend/src/routes/auth.js:181-219 | a login adds one open token of a new chain, a logout revokes its token, a reset revokes exactly the user's |
| `RefreshTokens.LiveTokensBounded` | backend/src/routes/auth.js:181-224 | in every interleaving a user's live tokens number at most their logins and registrations plus the rotations that overtook a revocation |
| `RefreshTokens.SerialisedRefreshes` | backend/src/routes/auth.js:880-894 | with requests serialised every live token is the last of its login's chain and live tokens never outnumber logins and registrations |
| `RefreshTokens.RevokedForever` | backend/src/routes/auth.js:216-219 | a revoked token never becomes live again, in any interleaving |
| `RefreshTokens.ResetEndsOldSessions` | backend/src/routes/auth.js:1002-1006 | a reset leaves no live token, and a session from before it can come back in some continuation exactly when a refresh of that user was in flight |
| `RefreshTokens.RotationForksIff` | backend/src/routes/auth.js:221-224 | from unforked chains, a rotation forks its chain exactly when it creates a token while another token of the chain is still open |
| `RefreshTokens.NeverForkedIff` | backend/src/routes/auth.js:880-894 | in any interleaving no chain is ever forked exactly when every rotation that creates a token finds the rest of its chain revoked |
| `RefreshTokens.UnforkedLiveTokens` | backend/src/routes/auth.js:880-894 | in such runs, races and all, a live token is the last of its chain and a user has at most one open token per login |
| `TotpLockout.UserRow.Respond` | backend/src/routes/auth.js:601-652 | one challenge: blocked, wrong or successful, and the counter and lock it writes |
| `TotpLockout.CounterRange` | backend/src/routes/auth.js:623-650 | the stored counter stays between 0 and 9, and is 0 while a lock is stored |
| `TotpLockout.WrongCodesBounded` | backend/src/routes/auth.js:601-652 | in any half-open 15-minute interval without a success at most ten wrong codes are verified |
| `TotpLockout.WrongsAreCounted` | backend/src/routes/auth.js:623-633 | every wrong code since a point is in the counter, or the account was locked on the way until past the interval |
| `TotpLockout.TenFailuresLock` | backend/src/routes/auth.js:601-633 | ten wrong codes in a row refuse whatever comes in the next 15 minutes |
| `AnchorCallback.ClaimStore.ClaimProviderEvent` | backend/src/routes/anchor.js:112-117 | the claim succeeds exactly when the key is free or expired, and holds it for seven days |
| `AnchorCallback.OneHandlerPerEvent` | backend/src/routes/anchor.js:767-903 | with callbacks finishing inside the claim's lifetime, at most one per provider transaction is past the claim and at work, whatever polls run |
| `AnchorCallback.SubmissionsBounded` | backend/src/routes/anchor.js:835-903 | in such runs, beside any polls, callback submissions for a transaction number at most one plus the callbacks that ended in 500 or crashed |
| `AnchorCallback.FailedCallbackIsRetried` | backend/src/routes/anchor.js:890-903 | a failed callback goes on to release its claim, and the next delivery of its event gets through |
| `AnchorCallback.ClaimsAreHeld` | backend/src/routes/anchor.js:112-117 | in every run a claim blocks redeliveries only for a callback at work, finished or crashed, and for seven days from its entry |
| `AnchorCallback.BothRoutesBounded` | backend/src/routes/anchor.js:625-688 | when no handler reads that there is no contribution while another that read so is unfinished, callbacks and polls together submit at most once plus the failed attempts |
| `AnchorCallback.AlwaysOneCommittedIff` | backend/src/routes/anchor.js:625-688 | across both routes, at most one unfailed handler of a deposit ever has submitted or is about to exactly when no such overlapping read happens |
| `AnchorCallback.OverlapInvolvesPoll` | backend/src/routes/anchor.js:112-117 | two callbacks never overlap so; a poll, which takes no claim, is involved |
| `AnchorCallback.OverlapMaySubmitTwice` | backend/src/routes/anchor.js:640-671 | from any state in which two handlers of a deposit have both read so, both may submit and both succeed |
| `SchemaCompare.CompareSnapshots` | backend/db/verify-schema-convergence.js:136-173 | no failure exactly when every table has the same normalised rows in the same order; missing, unexpected and differing tables are named exactly when they are so, each once |
| `SchemaCompare.RowsTextInjective` | backend/db/verify-schema-convergence.js:142-142 | two row lists have the same JSON text exactly when they are equal, undefined and null told apart |
| `SchemaCompare.SameNormalizedRow` | backend/db/verify-schema-convergence.js:57-66 | two rows are the same exactly when all six column properties are; the position is not one |
| `SchemaCompare.SameTablesSameSnapshot` | backend/db/verify-schema-convergence.js:38-47 | for snapshots in table order, under any one collation, agreement table by table is equality of the whole lists |
| `SchemaCompare.GroupByTable` | backend/db/verify-schema-convergence.js:153-160 | grouping keeps each table's rows in order and the tables in order of first appearance |
| `SchemaCompare.DifferingTables` | backend/db/verify-schema-convergence.js:161-171 | exactly the tables whose rows differ are listed, each once |
| `Escaping.SequentiallyIsSimultaneously` | backend/src/emails/layout.js:1-8 | a chain of global replacements in which no pass rewrites an earlier one's output is one simultaneous substitution |
| `Escaping.DecodeInverts` | backend/src/emails/layout.js:1-8 | decoding prefix-free references that start with an escaped ampersand inverts the substitution |
| `Escaping.EscapeHtmlProperties` | backend/src/emails/layout.js:1-8 | the five passes are one substitution, leave no raw `<`, `>`, `"` or `'`, and are inverted by decoding |
| `Escaping.EscapeXmlProperties` | backend/src/routes/campaigns.js:1687-1693 | the same for the four-pass escaper on its own characters |
| `Escaping.EscapeXmlWithAposProperties` | backend/src/routes/embed.js:91-98 | the same for the five-pass escaper with `&apos;` |
| `Escaping.EscapeHtmlUnit` | backend/src/emails/layout.js:3-7 | each of the five marks becomes its reference, every other unit itself |
| `Escaping.EscapeXmlUnit` | backend/src/routes/campaigns.js:1689-1692 | each of the four marks becomes its reference, every other unit itself |
| `Escaping.EscapeXmlWithAposUnit` | backend/src/routes/embed.js:93-97 | each of the five marks becomes its reference, every other unit itself |
| `ActivityCsv.EscapedReads` | backend/src/routes/campaignActivity.js:18-21 | doubling quotes is undone by reading an escaped field |
| `ActivityCsv.RecordReads` | backend/src/routes/campaignActivity.js:61-71 | a line of cells reads back as its fields |
| `ActivityCsv.ActivityExportReads` | backend/src/routes/campaignActivity.js:58-76 | a reader of section 2 of RFC 4180, with LF also a record break, recovers the header and exactly the field texts of every row, commas, quotes and line breaks included |
| `ActivityCsv.FieldsUnderTheirNames` | backend/src/routes/campaignActivity.js:58-71 | each field stands under its own name, a missing one as the empty text |
| `ActivityCsv.CellIsEscaped` | backend/src/routes/campaignActivity.js:18-21 | every cell is quoted and reads as one escaped field |

## Left out

- Real durations and clocks: one monotone clock stands for Node, PostgreSQL and Redis, so clock skew is not modelled.
- SQL inside migration files: a file is a deterministic partial function on schemas; transaction control inside a file is not modelled.
- Down migrations and `--bootstrap-schema` parsing: a run is strict or bootstrap by a flag.
- Hashing: SHA-256 is an injective function of its text; password hashing and token entropy are not modelled.
- Numbers in JSON: a number is the text JavaScript prints for it, so `NaN` and `Infinity`, which print as null, are not values; the reader accepts no insignificant whitespace.
- The key gate of the idempotency middleware: header and body key agreement, the key pattern and the missing-actor answer.
- Responses a handler sends other than through `res.json`: they never reach the idempotency table.
- Milestone handlers' checks on a row read earlier in the request: they only add refusals, and the statements are modelled without relying on them, except that an approval needs evidence and a destination in the row it read.
- READ COMMITTED inside plan replacement: its SELECT, DELETE and INSERTs are one atomic step here.
- The release worker's leases, signing and chain polling: its steps are claim, an envelope landing, failure, and a finalisation once the envelope has landed; that a failure is only recorded for an envelope that cannot land is the condition of MilestonePayouts.PaidOnceOnLedger.
- Campaign clone and bulk import: other writers of milestone plans, with their own validation, are not part of this model.
- Refusals before a plan is saved (ownership, campaign status, non-pending milestones): each leaves the rows as they are.
- Floating point: percentages and amounts are exact reals; PostgreSQL's NUMERIC division, with its rounding, is a parameter of the listing.
- `stripHtml` on titles and descriptions: a model item carries the stripped texts.
- MigrationRunner.Connection.RunStatus: leaves out the applied-at time that the report prints beside applied files.
- CampaignQuery.BuildListing: does not model a parameter text the database refuses, such as one holding a NUL character, nor repeated query parameters, which Express parses to arrays, nor LIMIT or OFFSET values outside BIGINT; `Number` and `parseInt` are parameters of the listing.
- Deadline windows so long that the date leaves PostgreSQL's range.
- The rows a sort order yields and the page cut from them: ORDER BY is a name here, and ts_rank is not modelled.
- Redis failures: the limiter and the callback claim fail open; bypass accounts never reach the counters; a pipeline is not resent.
- TotpLockout.WrongCodesBounded: does not model overlapping challenges; challenges of one account are serialised; overlapping ones read the same counter and their failures are counted once.
- Trusted devices and the IP and e-mail limiters in front of the 2FA challenge, and verification of codes.
- Session rows: revoking a session does not touch the refresh tokens modelled here.
- DisputeHolds.HeldNamesItsDispute: does not model overlapping dispute requests; raise, status change and decision are serialised, as none of them locks its rows.
- Restoration of the campaign's status after a dispute, multisig freezes, escrow releases and milestone halts of `POST /disputes`; the halts are a step of the milestone model.
- Automatic refunds queued outside disputes, which also name contributions.
- Anchor polls beyond their read, submission and record: authentication and the remote status are not modelled; submissions are counted as calls, whatever `submitCustodialContribution` deduplicates inside.
- Callback signature, timestamp and payload checks, and the delivery of later status updates.
- Snapshot rows without a table or column name, and the checks of expected tables and seed data.
- `String(value)` of non-text values given to an escaper, and the date formatting of the activity export.
