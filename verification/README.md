# Normascope: money, storage and the small kernels

A Dafny model of the parts of Normascope where a wrong number costs money or loses a
customer's data, and proofs of what those parts promise.

**The money path.** Every hosted analysis first reserves a worst-case dollar amount, then
consumes prepaid credits, soonest to expire first, then settles or gives both back.
`Pricing` holds the price arithmetic; `ProviderBudget` the reservation table and the day's
spend; `BudgetProtocol` the same protocol with its statements interleaved freely among any
number of callers, and `BudgetWholeSteps` with each operation as one step. `Ledger` is the
credit ledger, `Usage` the meter and the attribution of cost to grants, `EconomicPath` the points
where both ledgers move, `CiBatch` the batches that are settled hours later, `CreditBooks` the
books all of them keep, and `Reconcile` the monthly report.

**Storage.** Identical bytes of one organization share one object. `UploadRules` is what a
declaration must look like, `UploadBooks` the tables and the bucket as a state machine,
`UploadAccounts` the quota, `UploadIntegrity` what committed rows point at, `UploadRetries`
what a refused commit leaves behind, and `Uploads` the operations themselves, each proved to
take those steps. `Retention` is the deletion walk as a function, `DeletionEffect` what a
finished walk has removed, `DeletionSteps` and `DeletionJobs` the batched, resumable jobs that
refine it, and `DeletionResult` the two put together. `DeletionAmongOthers` is a job whose calls
lie among the uploads and deletions of others.

`StorageSteps` takes commits, failures, sweeps and deletions apart into their statements and
says what each must wait for. `StorageSound` and `StorageBooks` are what runs keep whose moves
do wait, objects and counts; `StorageRaces` proves that each of these conditions is exact,
`StorageCommits` what a commit needs while it is under way, `StorageMishaps` what happens
without, and `StorageWhole` that the statements, uninterrupted, are the operations above.

**Kernels.** `Ceilings` and `RateLimits` are the fixed-window counters, `ImageHeaders` and
`CropGrounding` the crop sidecar, `Webhooks` the out-of-order subscription events, `Waitlist`
the CSV export with a reader for the format it claims.

`Sums`, `Order`, `Tables` and `Store` are shared: finite sums, `ORDER BY`, and the row types.

## How to read it

* A table is a map from ids to rows; the bucket is a map from keys to the hash and size of the
  bytes it holds. A transaction is one method call, unless a property is about its statements.
* Time is a number that callers pass in. `storage.delete` behaves as a script says: it works,
  throws before the object is gone, or throws after.
* Money is whole microdollars. Where the program multiplies doubles, the model multiplies
  exact reals and rounds as `Math.round` and `Math.ceil` do.
* An operation that changes state is a method of a class, proved against a function on values;
  the promises are lemmas about those functions, over all inputs or all runs.
* Where a method and the function it is proved against share a definition (which rows a query
  selects, which limit a ceiling has, in which order grants are spent), the contract also says
  what it comes to over the tables' own columns, without that definition.

## Where the code promises less than its comments

* The two reads of a budget check are two statements, and a settlement takes no lock. The
  ceiling can be passed by what is settled between the reads, and by no more
  (`BudgetWholeSteps.ReadsCanMissASettlement`, `BudgetProtocol.CapUnderInterleaving`), and late
  settlements are booked on the day they arrive (`BudgetWholeSteps.CapWhenWhole`).
* Refunds and usage events are not idempotent: finishing a call that holds credits breaks the
  books exactly if it had been refunded before (`CreditBooks.ChargeKeeps`,
  `CreditBooks.ReturnKeeps`).
* A failed upload deletes its objects without asking whether a committed row uses them, and
  outside the transaction that takes its rows; a commit writes what it verified earlier without
  looking again. Neither is safe unless it waits for what `StorageRaces.SafeExactlyWhen` says:
  two runs pending on one key (`UploadIntegrity.TwoPendingRunsHurt`), a commit that lands inside
  a sweep (`StorageMishaps.CommitInsideSweep`) or after it (`StorageMishaps.CommitAfterTheSweep`,
  `UploadAccounts.CommitAfterSweep`), and two commits of one run
  (`StorageMishaps.OverlappingCommits`) break it.
* After a refused commit a run with deduplicated rows can be committed by a second attempt that
  verifies nothing (`UploadRetries.RefusalLeavesNothingExactlyWhen`,
  `UploadRetries.RetrySkipsWhatFailed`).
* Deleting a row is several statements without a transaction. A declaration that deduplicates
  onto an object whose deletion has begun is left without it for good
  (`StorageMishaps.LateThrowLosesAnObject`, `StorageSound.LostForGood`), a deletion that stops
  before its last statement gives its bytes back twice
  (`StorageMishaps.StoppedDeletionForgetsTwice`), and two at once can leave an object behind
  (`StorageMishaps.TwoDeletionsSpareEachOther`). The conditions are those of
  `StorageRaces.SafeExactlyWhen` and, for the last, `StorageMishaps.SparedIsStrayExactlyWhen`.
* An event whose first delivery throws before its write is lost: every redelivery is taken for
  a duplicate (`Webhooks.FirstDeliveryDecides`).
* A request that commits more than a week after its stamp can find its counters dropped and
  pass a limit (`RateLimits.LimitsHoldForExactlyAWeek`).
* A dry run counts a shared object only once its last row is alone, so it can promise fewer
  objects than the real run removes (`DeletionEffect.DryRunNeverExceeds`).
* The ordering of subscription events rests on their stamps; an event without one erases the
  stamp (`Webhooks.LatestStampWinsExactlyWhen`, `Webhooks.UnstampedEventsLoseTheOrder`).

## Model

| member | source | states |
|---|---|---|
| `Pricing.WorstCaseDominates` | src/providerBudget.ts:104-122 | before rounding, the reserved token mix is the most expensive of all mixes within the caps, for any prices |
| `Pricing.ReservedMaximumCovers` | src/providerBudget.ts:124-149 | for every priced model, batch or not, a call within the input, cache-write and output caps costs between 0 and the reserved maximum; exactly the unpriced models have neither |
| `Pricing.BatchIsCheaper` | src/usage.ts:57-73 | the batch rate never costs more than the interactive one, rounding included |
| `Pricing.CostIsNearest` | src/usage.ts:30-73 | at the published prices a call is booked at its exact cost, cache writes at one and a quarter and cache reads at a tenth of the input price, rounded to the nearest microdollar; a batch call at half of it |
| `Pricing.CreditsAreLeastCover` | src/providerBudget.ts:170-194 | the credits charged are the least whole number, at least one, whose floor revenue leaves the 50% margin over the interactive maximum |
| `Pricing.NoCallLosesMoney` | src/providerBudget.ts:170-194 | whatever an admissible call really costs, the credits it charges leave at least the margin floor |
| `Pricing.MarginReportClears` | src/providerBudget.ts:216-259 | every row of the margin report clears the floor with a margin of at least one half: 4 credits against a maximum of 56,295 microdollars for an analysis, 8 against 140,738 for a deep pass |
| `Pricing.PublishedPrices` | src/providerBudget.ts:151-200 | 4 credits for an analysis, 8 for a deep pass, with the maxima they rest on |
| `ProviderBudget.Reservations.Reserve` | src/providerBudget.ts:375-502 | an attempt is admitted exactly if its maximum fits beside what the day, the organization's month and the key's month have spent and hold, each under the number configured for it, and the sums with the new row are within them; a refusal names such a number, the two figures read for it and that they leave no room, after every earlier ceiling had room; otherwise nothing changes, and an id that is taken fails on its key |
| `ProviderBudget.Reservations.CheckCeilings` | src/providerBudget.ts:393-466 | a call is refused exactly when some configured ceiling has no room for it, by the first in the order global, organization, key that has none, with that ceiling's own number and the two sums over its own rows |
| `ProviderBudget.FullIsNoRoom` | src/providerBudget.ts:393-466 | some configured ceiling stops a call exactly if one of the three figures, summed over the rows' own columns, leaves no room under the number configured for it |
| `ProviderBudget.Reservations.Settle` | src/providerBudget.ts:504-560 | the first settlement of a live or expired reservation books its cost on the settlement day; a repeat changes nothing and returns the booked amount; a released one cannot be settled |
| `ProviderBudget.Reservations.Release` | src/providerBudget.ts:562-574 | only a reserved row is released; everything else is left alone |
| `ProviderBudget.Reservations.SweepExpired` | src/providerBudget.ts:576-586 | exactly the reserved rows that have reached their expiry become expired, every other row stays as it is, and they are counted |
| `ProviderBudget.SettleMoves` | src/providerBudget.ts:523-560 | a settlement takes a row out of the day's live total and adds its cost to the recorded spend of the settlement day, and nothing else |
| `ProviderBudget.SweepKeepsLive` | src/providerBudget.ts:576-586 | sweeping changes neither what live reservations hold now or later nor what is recorded |
| `ProviderBudget.LiveShrinksWithTime` | src/providerBudget.ts:393-407 | with time alone, what a day's reservations hold only shrinks |
| `BudgetProtocol.CapUnderInterleaving` | src/providerBudget.ts:393-426 | for every interleaving of reserve's statements with any settlements, releases and sweeps: a day's spend plus live reservations exceeds the limit by at most what was settled between the two reads of the last admitted reserve, plus late and over-maximum excess |
| `BudgetProtocol.CapWhenPrompt` | src/providerBudget.ts:393-426 | with settlements on time and within their maximum, only the amounts settled between the two reads can exceed the limit |
| `BudgetWholeSteps.CapWhenWhole` | src/providerBudget.ts:375-582 | with each operation one step, only late or over-maximum settlements can exceed the limit, and by no more than their excess |
| `BudgetWholeSteps.TrueCap` | src/providerBudget.ts:375-582 | with whole operations and prompt settlements the limit is a true cap in every reachable state |
| `BudgetWholeSteps.UninterruptedReserve` | src/providerBudget.ts:393-426 | run without interruption, the five statements admit exactly the attempts that fit, and a refusal changes nothing |
| `BudgetWholeSteps.ReadsCanMissASettlement` | src/providerBudget.ts:405-407 | the bound is tight: for every limit and every amount within it some prompt run ends above the limit by exactly the amount settled between the two reads |
| `BudgetProtocol.SpendIsWhatWasSettled` | src/providerBudget.ts:523-560 | under any retries and duplicates a day's recorded spend is the sum of the costs on the rows settled that day, less only the negative amounts the floor cut |
| `BudgetProtocol.NonNegativeMeansExact` | src/providerBudget.ts:523-560 | with non-negative costs the recorded spend is exactly that sum |
| `BudgetProtocol.TerminalStatesAreFinal` | src/providerBudget.ts:523-574 | settled and released rows keep their state, cost and day whatever happens later |
| `Ledger.CreditLedger.GrantCredits` | src/ledger.ts:43-55 | one grant per payment reference; a repeat changes nothing |
| `Ledger.CreditLedger.Balance` | src/ledger.ts:57-63 | the balance is the sum over unexpired grants |
| `Ledger.CreditLedger.ConsumeCredits` | src/ledger.ts:76-119 | takes all of the amount or rolls back; it draws only on unexpired grants of the organization, in order of expiry, and on none while one that expires sooner still holds anything |
| `Ledger.DecidedByTheBalance` | src/ledger.ts:60-119 | a consumption succeeds exactly if what the organization's unexpired grants still hold covers it, and reports that balance otherwise |
| `Ledger.CreditLedger.DebitInOrder` | src/ledger.ts:85-118 | the loop over the locked rows takes what the walk in spend order takes and leaves the rest uncovered |
| `Ledger.CreditLedger.RefundCredits` | src/ledger.ts:121-130 | every entry is added back to its grant |
| `Ledger.ConsumeTakesExactly` | src/ledger.ts:76-119 | consumption succeeds exactly when the unexpired balance covers the amount, reports the balance otherwise, and takes exactly the amount from distinct grants, draining all but the last |
| `Ledger.ConsumesSoonestFirst` | src/ledger.ts:76-119 | only unexpired grants of the organization are drawn on, soonest to expire first and the smaller id first among equals, and each of them that comes before a listed one is taken whole |
| `Ledger.TakeAmount` | src/ledger.ts:85-117 | the walk takes the whole amount or all there is |
| `Ledger.TakeShape` | src/ledger.ts:85-117 | the walk drains every grant it touches but possibly the last, in order |
| `Usage.AttributeCost` | src/usage.ts:149-180 | the shares sum to exactly the cost; each is its proportion rounded down, and the first largest grant also takes what rounding left, less than one microdollar per grant |
| `Usage.FloorsFallShort` | src/usage.ts:149-180 | rounding every share down loses less than one microdollar per grant, and never gains |
| `Usage.SharesNonNegative` | src/usage.ts:149-180 | no share of a non-negative charge is negative |
| `Usage.SourcesCarryTheCost` | src/usage.ts:182-196 | with one part per grant no row is lost to the conflict clause and the rows carry the whole cost |
| `Usage.AttributedIsExact` | src/usage.ts:149-196 | a recorded event with its attributions is exact: the funding adds up to the cost |
| `Usage.Meter.RecordUsage` | src/usage.ts:94-124 | one new event row under a fresh id |
| `Usage.Meter.RecordCostAttribution` | src/usage.ts:182-196 | one row per part, skipping a grant the event already has |
| `Reconcile.FourPots` | src/reconcile.ts:187-233 | every microdollar metered in the month is in exactly one of allowance, packs, goodwill or unattributed |
| `Reconcile.ContributionReconciles` | src/reconcile.ts:223-241 | on exact attributions the clamp at zero never acts, and the total contribution is net revenue less all provider cost less storage |
| `Reconcile.LinesAreTheMonths` | src/reconcile.ts:141-241 | subscriptions earn their prices less refunds and fees and pay the allowance's cost, packs the packs' cost, sale by sale of the month; goodwill, the unattributed and storage come off the whole; the fees are complete exactly if each of these sales has its fee recorded |
| `Reconcile.LineIsTheMonths` | src/reconcile.ts:141-170 | a revenue line is the prices, refunds and fees of the month's sales, their net, and the number of those without a recorded fee |
| `Reconcile.ChargeFallsOnItsKinds` | src/reconcile.ts:181-191 | a charge in the month raises each kind's cost by what the reservation's grants of that kind carry: nothing if it drew on none of them, all of it if it drew on no others; outside the month nothing |
| `Reconcile.AllFundedMeansNoneUnattributed` | src/reconcile.ts:226-233 | when every charged event has funding records nothing is unattributed |
| `Reconcile.CallsLeaveNothingUnattributed` | src/reconcile.ts:223-241 | on a meter written only by calls that hold credits nothing of a month is unattributed, and the report adds up to what was earned less what was spent |
| `CreditBooks.CreditsConserved` | src/economicPath.ts:95-332 | after every run of grants, reservations, charges and refunds in which each call is finished at most once, credits granted are remaining, in flight or charged, grant by grant and in total |
| `CreditBooks.CreditsMove` | src/economicPath.ts:95-332 | whatever a grant holds and a call costs, if it covers the call, reserving takes the price from it, charging leaves it taken, and returning gives it back |
| `CreditBooks.ChargeKeeps` | src/ciBatch.ts:293-365 | charging a call keeps the books exactly when it had not been refunded before, or held nothing |
| `CreditBooks.ReturnKeeps` | src/ledger.ts:121-130 | refunding a call keeps the books exactly when it had not been refunded before, or held nothing; a call that was charged may still be refunded |
| `CreditBooks.EveryCallLives` | src/ciBatch.ts:293-365 | every call of a run that finishes calls at most once was reserved by one action for exactly its price and finished by at most one later one: charged that price, or with each grant given back exactly what the reservation had taken from it |
| `EconomicPath.MoneyPath.ReserveBoth` | src/economicPath.ts:95-189 | a call is held exactly when its model has a price, it breaks no ceiling and the balance covers it; a refusal names its cause, moves no grant and leaves nothing reserved; no dollars means one unpaid event and, at the global ceiling, the breaker |
| `EconomicPath.StillUnaffordable` | src/providerBudget.ts:393-426 | what cannot be held now cannot be held after more reservations, events and consumption either |
| `EconomicPath.UnaffordableByColumns` | src/economicPath.ts:95-180 | a call cannot be held exactly if it has no price, a configured ceiling has no room beside what its rows have spent and hold, or the unexpired grants hold too few credits |
| `EconomicPath.MoneyPath.HoldCredits` | src/economicPath.ts:161-172 | once the dollars are held the credits are taken whole, or the reservation is released |
| `EconomicPath.MoneyPath.SettleCharged` | src/economicPath.ts:254-290 | books the cost and meters one charged event with one row for each grant the reservation drew on and no other: that grant's kind, the credits drawn from it and its proportional share rounded down, the first that gave most carrying the remainder |
| `EconomicPath.MoneyPath.ReleaseBoth` | src/economicPath.ts:315-332 | gives both reservations back: every grant holds what it held and nothing stays reserved |
| `EconomicPath.MoneyPath.Explain` | src/explainService.ts:241-379 | a call is refused exactly when it cannot be held; otherwise it is charged in full, metered once and books its cost exactly when its result is accepted; in every other case all grants and the day's spend are as they were |
| `EconomicPath.MoneyPath.HostedExplain` | src/explainService.ts:156-241 | breaker, cache, price, run cap and agent budget in this order: which check stops a request, that a stopped request moves nothing, and that an agent key that was within its budget still is after the charge |
| `EconomicPath.MoneyPath.Conclude` | src/explainService.ts:281-379 | a held call is charged in full, metered once and booked at its cost, or everything it held goes back |
| `EconomicPath.ResolvedIsWhole` | src/economicPath.ts:191-211 | resolving kinds keeps every consumption, in order and amount, under the kind of its own grant, when the grant exists |
| `EconomicPath.AttributeReservation` | src/economicPath.ts:262-288 | a charge of a good reservation is attributed exactly: to the grants it drew on, each under its own kind with its own credits and share |
| `CiBatch.CiBatches.Enqueue` | src/ciBatch.ts:113-274 | cached frames are served, the batch holds at most five of the others in order, and each skipped frame has its true reason; a reason of price, ceilings or credits is still true of what is left afterwards; if nothing was accepted or submission failed, every grant is as before and nothing stays reserved |
| `CiBatch.CiBatches.Consider` | src/ciBatch.ts:143-236 | a frame that reaches the money is in the batch exactly if it can be paid for; otherwise its reason is the first that fails of price, ceilings and credits |
| `CiBatch.CiBatches.Collect` | src/ciBatch.ts:282-367 | a pending batch finishes every entry exactly once, charging good results and returning the rest, books each dollar cost in turn, writes one meter row per entry with who paid for it and lists both kinds of frame in order; a collected or unfinished batch changes nothing |
| `CiBatch.CollectingTwiceBooksOnce` | src/ciBatch.ts:343-361 | a second collector of the same results books nothing more against the provider's budget |
| `CiBatch.CiBatches.FinishEntry` | src/ciBatch.ts:299-363 | one entry is charged and metered at its cost, or its reservations go back and the failure is metered at nothing |
| `CiBatch.CiBatches.GiveBack` | src/ciBatch.ts:245-266 | after a failed submission every entry's credits and dollars are back |
| `CiBatch.OnlyRefundedCallsAdded` | src/ciBatch.ts:245-266 | two good states that differ only by refunded calls have the same grants |
| `Retention.TodoAfterArtifact` | src/retention.ts:309-376 | one turn of the artifact loop leaves exactly one row less to visit, deleting or dry |
| `Retention.TodoAfterRun` | src/retention.ts:429-449 | finishing a run leaves exactly the rows of the later matching runs, or ends the walk |
| `Retention.Continue` | src/retention.ts:300-378 | wherever a run's walk is cut, both halves give the whole walk's tables and receipt |
| `DeletionEffect.DeletionIsExact` | src/retention.ts:300-502 | the finished walk has left exactly the other runs (for a run job), the runs of other repositories, or the runs not older than the cut-off or of an organization other than the one named, with their artifact rows unchanged; an object is gone exactly if rows used its key and none is left; the receipt counts each once |
| `DeletionEffect.WalkRunsRemoves` | src/retention.ts:412-452 | from any point, the walk removes exactly the rows and runs ahead of it, and the objects they were the last to use |
| `DeletionEffect.ReceiptBytes` | src/retention.ts:341-368 | the bytes on the receipt are those of the objects that went, where rows on one key record one length |
| `DeletionEffect.DryRunCounts` | src/retention.ts:328-376 | a dry run changes nothing and counts the targeted rows that share their key with no other row |
| `DeletionEffect.DryRunNeverExceeds` | src/retention.ts:328-376 | the dry run never counts more objects than the real run removes, and as many exactly when no freed key is used by two targeted rows |
| `DeletionSteps.ArtifactAdvances` | src/retention.ts:324-376 | deleting the next row moves the walk without changing its outcome, and rows of other runs keep their objects |
| `DeletionSteps.LateThrowAdvances` | src/retention.ts:341-346 | a delete that removed the object and then threw changes nothing of the outcome: the row is still there and the retry counts it once |
| `DeletionSteps.RestartsWhereItStood` | src/retention.ts:243-259 | a failed batch keeps the old cursor, and walking from it is the same as walking from where the batch had got to |
| `DeletionSteps.RunFinishes` | src/retention.ts:434-449 | a run without rows left loses its own row and the walk goes on from the next matching run, or ends |
| `DeletionJobs.Deletions.DeleteOne` | src/retention.ts:324-376 | object first, then quota, then row; when the delete throws the row is still there and nothing was counted |
| `DeletionJobs.Deletions.DeletePage` | src/retention.ts:324-376 | a page of rows is walked in order, as far as the first throw |
| `DeletionJobs.Deletions.DeleteRunArtifacts` | src/retention.ts:300-378 | up to the budget of one run's rows; `remaining` exactly when the budget is used up, otherwise no row of the run is left |
| `DeletionJobs.Deletions.DeleteRunWork` | src/retention.ts:384-403 | a run job: what the batch did and what is left add up to the whole outcome, thrown or not |
| `DeletionJobs.Deletions.DeleteRunsOf` | src/retention.ts:412-452 | the same over every matching run, each finished before the next is begun; the runs of other repositories, or those not older than the cut-off or of other organizations, keep their row, their artifact rows and their objects |
| `DeletionJobs.Deletions.Work` | src/retention.ts:269-284 | the same for run, repository and retention scopes; a job without a target throws and changes nothing |
| `DeletionJobs.Deletions.RunDeletionJob` | src/retention.ts:174-260 | a queued job, a failed one and one claimed more than 15 minutes ago is claimed and no other; a claimed call keeps the promised outcome, every run the job is not about keeps its row, its artifact rows and their objects, and without a throw it ends the job or gets exactly one batch further; a call that wins no claim changes nothing |
| `DeletionJobs.Deletions.EnqueueAndRun` | src/retention.ts:623-639 | without a throw a job over A rows takes exactly floor(A / batchSize) + 1 calls, so it finishes exactly if that is at most `maxBatches` |
| `DeletionJobs.Deletions.Resume` | src/retention.ts:174-260 | any later calls, at any times, with any batch sizes and through any failed deletes, keep the outcome promised at the start, while nobody else writes |
| `DeletionResult.FinishedJobIsExact` | src/retention.ts:174-502 | a job that is done, however it got there, has left exactly the runs that are not its own, not of its repository, or not older than its cut-off (or of an organization it does not name), their artifact rows unchanged, and of the objects all but those whose every row is gone; a dry one has changed nothing; while nobody else writes |
| `DeletionAmongOthers.TargetIsGoneAmongOthers` | src/retention.ts:174-502 | with any writes to other runs between its calls, once the job is done no targeted run or row is left, and a targeted key is gone exactly when no row left uses it, but for keys an upload is still pending on |
| `DeletionAmongOthers.FinishedAmongOthers` | src/retention.ts:174-502 | at every point of such a job no object under a targeted key is without a row, and every committed row outside the target has its object |
| `DeletionAmongOthers.ForeignStepsAreElsewhere` | src/artifactUploads.ts:375-773 | declarations, transfers, commits, failures and deletions of other runs are such writes, if declarations deduplicate onto objects that are there and failing runs wait for no committed key |
| `UploadRules.Validate` | src/artifactUploads.ts:328-359 | refuses too many artifacts as such and any malformed or repeated artifact as malformed; accepts every other list |
| `UploadRules.WellDeclaredIs` | src/artifactUploads.ts:40-118 | an artifact is well formed exactly if its kind is known, its hash is one, its size is positive and a content type of its kind fits, and that type is unique |
| `Uploads.UploadService.DeclareUpload` | src/artifactUploads.ts:375-476 | a declaration is accepted exactly when entitlement, shape and quota allow it; then each artifact has its row, committed under a key that already holds its hash or waiting with nothing stored under its own, the run counts against today's runs, and the organization is within its plan; a refusal changes nothing and names the first check that failed |
| `Uploads.UploadService.WriteDeclaration` | src/artifactUploads.ts:433-475 | the rows of the declaration are written, committed ones on held keys and pending ones on their own, and the fresh bytes are reserved |
| `Uploads.UploadService.ReadHeld` | src/artifactUploads.ts:412-421 | exactly the hashes some committed row of the organization has are held, under one of its keys |
| `Uploads.UploadService.CommitUpload` | src/artifactUploads.ts:628-735 | repeats its answer for a committed run; otherwise commits exactly a run whose waiting rows all have their object, of the declared length and hash, making those rows hold what they declared and changing no other, and undoes any other run: its waiting rows and their objects, and its own row with its last artifact row |
| `Uploads.UploadService.Verify` | src/artifactUploads.ts:682-714 | accepts exactly when every pending row's object is present with the declared size and, unless told otherwise, the declared hash |
| `Uploads.UploadService.FailRun` | src/artifactUploads.ts:752-773 | objects, then pending rows, reservation and an empty run; a throw leaves every row |
| `Uploads.UploadService.SweepAbandonedUploads` | src/artifactUploads.ts:795-825 | undoes only runs pending since before the cut-off, at most the limit of them, and leaves such a run only once it has its number and none of those taken is younger; it reports the rows and bytes they had; a throw leaves exactly the runs before it undone |
| `UploadRetries.RefusalLeavesNothingExactlyWhen` | src/artifactUploads.ts:752-773 | a refused commit leaves neither rows nor run exactly when the run has no deduplicated row; otherwise the run stays pending without the rows that failed |
| `UploadRetries.SecondAttemptVerifiesNothing` | src/artifactUploads.ts:682-731 | a run left so has nothing left to verify, and a second commit of it succeeds |
| `UploadRetries.RetrySkipsWhatFailed` | src/artifactUploads.ts:682-731 | from empty tables, a run in which a promised screenshot never arrives, the first commit is refused and the second succeeds |
| `UploadAccounts.QuotaIsConserved` | src/artifactUploads.ts:223-295 | on every run of whole operations, reserved bytes are the declared bytes of pending rows, stored bytes are at least the size of the distinct committed keys, and both together are within the plan |
| `UploadAccounts.NoFloorIsMet` | src/artifactUploads.ts:257-295 | on every such run of whole operations no subtraction meets its floor at zero |
| `UploadAccounts.CommitAfterSweep` | src/artifactUploads.ts:259-277 | a commit that settles after the sweep has taken its run stores bytes no row stands for, and leaves the reservation count right exactly if it settles nothing or nothing else is pending; otherwise other uploads lose that much of their reservation |
| `UploadAccounts.DeclareBalances` | src/artifactUploads.ts:375-476 | a declaration within the checks keeps the accounts |
| `UploadAccounts.CommitBalances` | src/artifactUploads.ts:721-731 | a commit keeps the accounts |
| `UploadAccounts.FailBalances` | src/artifactUploads.ts:752-773 | a failed or swept run keeps the accounts |
| `UploadAccounts.DeletionBalances` | src/retention.ts:341-373 | deleting a committed row keeps the accounts |
| `UploadIntegrity.CommittedRowsAreIntact` | src/artifactUploads.ts:415-472 | on every run of whole operations in which no two runs are pending on one key at once, each committed row points at a present object whose bytes hash to the row's sha256 |
| `UploadIntegrity.FailureIsSafeExactlyWhen` | src/artifactUploads.ts:752-773 | with nothing in between, a failed run leaves committed rows intact exactly if none of them uses a key it was pending on |
| `UploadIntegrity.TwoPendingRunsHurt` | src/artifactUploads.ts:752-773 | a concrete run in which two runs are pending on one key, one commits, and the other's failure deletes its object |
| `UploadIntegrity.DeclareKeepsIntact` | src/artifactUploads.ts:415-472 | deduplicated rows point at objects that are there |
| `StorageBooks.OrderlyRunsAreRight` | src/artifactUploads.ts:375-773 | from empty tables, with declarations, transfers, commits, failures, sweeps and deletions interleaved statement by statement among any number of callers, each of which may stop anywhere: on every run whose moves wait their turn, each committed row has its object until its own deletion takes it, reserved bytes are those of pending rows, stored bytes are those settled less those given back, each once, no floor changes a count, and both counts stay within the plan |
| `StorageRaces.SafeExactlyWhen` | src/artifactUploads.ts:682-773 | a move leaves all that right in every continuation whose moves wait their turn exactly when it waited its own: a settle, that its rows are still pending on present objects and no failure holds them; a failure, that no other holds the run's rows; a deletion past its count, that its row is there, its bytes are not given back and no other deletion of it has counted; a declaration, that it names no new key another run is pending on and deduplicates onto no object that is gone or going |
| `StorageRaces.RunIsSafeExactlyWhen` | src/artifactUploads.ts:375-773 | a run from empty tables is safe in every continuation at each of its points exactly when each of its moves waited its turn |
| `StorageSound.CommittedRowsKeepTheirObjects` | src/retention.ts:324-373 | on such runs no deletion, failure or sweep, wherever it threw or stopped, costs a committed row its object but the row's own deletion |
| `StorageSound.LostForGood` | src/artifactUploads.ts:415-472 | a committed row that has lost its object never gets it back while it stands: the same bytes deduplicate instead |
| `StorageCommits.UndisturbedCommitMaySettle` | src/artifactUploads.ts:682-731 | a commit whose rows stood when it verified them may settle at the end of any run in which no commit of its run settles, no failure of it begins and no other bytes arrive under its keys |
| `StorageMishaps.CommitInsideSweep` | src/artifactUploads.ts:752-773 | from empty tables, a run in which a verified commit settles between a sweep's deletes and its transaction: the committed row has no object and the reservation is given back twice |
| `StorageMishaps.CommitAfterTheSweep` | src/artifactUploads.ts:262-277 | from empty tables, a run in which the sweep's transaction comes first: bytes stay stored for which there is no row and no object |
| `StorageMishaps.OverlappingCommits` | src/artifactUploads.ts:682-731 | from empty tables, a run in which a commit is repeated before the first one settles: twice the bytes are stored |
| `StorageMishaps.StoppedDeletionForgetsTwice` | src/retention.ts:367-371 | from empty tables, a run in which a deletion stops between giving back the bytes and deleting the row, and its retry gives them back again |
| `StorageMishaps.RetryForgetsAgain` | src/retention.ts:328-371 | whatever else is stored, the retry of a deletion stopped there takes the row's bytes from the count a second time |
| `StorageMishaps.LateThrowLosesAnObject` | src/retention.ts:328-346 | from empty tables, a run in which a delete throws late, another run deduplicates onto the lost object, and the retry leaves that run's committed row without it |
| `StorageMishaps.SparedIsStrayExactlyWhen` | src/retention.ts:328-371 | a deletion that found other users leaves its object without any row exactly when they are gone by the time it deletes its own row |
| `StorageMishaps.TwoDeletionsSpareEachOther` | src/retention.ts:328-371 | wherever two rows alone share an object, two deletions that each count before the other deletes leave the object without any row |
| `StorageWhole.UninterruptedCommit` | src/artifactUploads.ts:682-731 | run without interruption, the statements of a commit that finds everything in order are the whole commit |
| `StorageWhole.UninterruptedFailure` | src/artifactUploads.ts:752-773 | the same of a failure none of whose deletes throws |
| `StorageWhole.UninterruptedDeletion` | src/retention.ts:324-376 | the same of the deletion of a committed row, shared or not |
| `Ceilings.TakeAll` | src/authThrottle.ts:326-400 | a call counts in every ceiling or, once one refuses, in none, and then all that is written is one more refusal in that ceiling's row of the window |
| `Ceilings.CountersAreFaithful` | src/rateLimit.ts:131-213 | on every run of calls and sweeps, committing in any order, each kept counter equals the number of admitted calls it covers, and no counter ever let more through than its limit, if no call commits so late that a newer call on the same ceiling and subject, or a sweep, may have dropped its own rows |
| `Ceilings.AnySpanAdmitsAtMostTwice` | src/rateLimit.ts:19-25 | on the same runs any span of one window's length admits at most twice the limit |
| `Ceilings.RetryReachesTheNextWindow` | src/rateLimit.ts:91-98 | the advised wait reaches the next window, and no shorter whole number of seconds above one does |
| `RateLimits.OrganizationIsItsKeys` | src/rateLimit.ts:149-152 | the calls an organization's counter covers are the sum of those its keys' counters cover |
| `RateLimits.OrganizationCounterIsTheSum` | src/rateLimit.ts:131-213 | in whatever order requests commit, none more than a week of windows behind another of its organization or key, the organization's counter is the sum of its keys' counters, within its limit |
| `RateLimits.AnyMinuteAdmitsAtMostTwice` | src/rateLimit.ts:19-25 | on such runs no minute, wherever it starts, admits more than twice what an organization or a key is allowed |
| `RateLimits.LimitsHoldForExactlyAWeek` | src/rateLimit.ts:175-188 | requests with two given stamps can pass a limit exactly when the stamps' windows lie more than the week apart for which rows are kept |
| `RateLimits.SignInCountersAreFaithful` | src/authThrottle.ts:326-400 | the same of sign-in mail and its sweep: counters equal the admitted requests they cover, within their limits, and no span admits more than twice the limit, in any order of commits within a week |
| `RateLimits.DefaultsAreWellSet` | src/authThrottle.ts:101-165 | the ceilings as they ship meet what that asks: one per scope, each with a window |
| `RateLimits.ShippedCeilings` | src/authThrottle.ts:101-165 | with them any day lets through at most 100 mails in all, 10 to one address, 60 invitations of one organization and 6 to one address; any hour 40 requests of one network, 20 of one caller and 60 sign-in starts; any ten minutes 2 to one address |
| `RateLimits.NamedHaveTheirBuckets` | src/authThrottle.ts:333-339 | every named ceiling has its bucket, with its limit and window, after those of the named ones before it |
| `RateLimits.RateLimiter.CheckRateLimit` | src/rateLimit.ts:131-213 | organization first, then key; the decision names the ceiling that refused, its limit and the wait |
| `RateLimits.AuthThrottle.TakeNamed` | src/authThrottle.ts:326-400 | one slot from each of the named ceilings, counted for the network, caller, address or organization it is about, in their fixed order, or none |
| `RateLimits.Chosen` | src/authThrottle.ts:333-339 | the named ceilings, each for its own subject, in declaration order |
| `ImageHeaders.ImageDimensions` | src/cropGrounding.ts:112-153 | the header reader stays in bounds, ends, and finds what the walk of the markers finds |
| `ImageHeaders.WalkMarkers` | src/cropGrounding.ts:123-150 | the loop over the markers reads in bounds, ends, and finds what the marker walk finds |
| `ImageHeaders.PngSizeIsRead` | src/cropGrounding.ts:113-120 | a PNG's size is the one its first chunk records, for all sizes of four bytes and whatever else the file holds |
| `ImageHeaders.FirstFrameHeaderIsRead` | src/cropGrounding.ts:122-153 | on marker segments without fill bytes the size returned is the first frame header's, whatever precedes and follows it |
| `ImageHeaders.NoFrameHeaderNoSize` | src/cropGrounding.ts:137-139 | a file whose image or scan begins to end before a frame header has no size |
| `ImageHeaders.OneSegment` | src/cropGrounding.ts:126-150 | a segment's length leads the walk exactly past it |
| `CropGrounding.GroundingFromSidecar` | src/cropGrounding.ts:164-265 | whatever is sent was measured, is in consecutive build and reference crops of one region, within 8 crops and 1,500,000 pixels, with an exact total; a region with exactly one crop of each kind has both sent unless a cap has no room for them beside what is sent before them; any other pair too is missing only for that |
| `CropGrounding.TakePairs` | src/cropGrounding.ts:249-264 | first-fit under both caps |
| `CropGrounding.FirstFitIsUnique` | src/cropGrounding.ts:249-264 | the first-fit choice is the only one in which each pair is taken exactly if it fits beside those taken before it |
| `CropGrounding.MeasureAll` | src/cropGrounding.ts:181-229 | the entries that pass every check, in order, with their measured sizes |
| `CropGrounding.PairAll` | src/cropGrounding.ts:231-246 | of crops in entry order two are a pair exactly if they are successive crops of one region, differ in kind and the earlier closed no pair; pairs stand in the order they were completed |
| `CropGrounding.LeftoversAreOfOneKind` | src/cropGrounding.ts:231-246 | after its last pair a region has crops of one kind only |
| `CropGrounding.PairIsSentIfRoom` | src/cropGrounding.ts:248-263 | every pair is sent exactly if it fits both caps beside the crops of the pairs completed before it that were sent |
| `CropGrounding.PairsAreSound` | src/cropGrounding.ts:231-242 | every pair is a build and a reference crop of one region, both measured |
| `CropGrounding.EachCropOnce` | src/cropGrounding.ts:231-242 | no crop is in two pairs, and none that waits is in a pair |
| `CropGrounding.RegionsAreIndependent` | src/cropGrounding.ts:231-242 | a region's pairs are those of its own crops alone |
| `CropGrounding.GroundingFitsTheReservation` | src/providerBudget.ts:104-122 | the crops sent fit the image tokens of the reservation, which counts pixels by the whole; rounded crop by crop they come to at most seven tokens more |
| `Webhooks.BillingWebhook.HandleWebhook` | src/webhooks.ts:108-163 | a claimed event id is a duplicate and changes nothing; otherwise the event is applied and its outcome recorded, and if applying it throws the claim is marked and the exception thrown on |
| `Webhooks.FirstDeliveryDecides` | src/webhooks.ts:130-157 | an event takes effect exactly if its first delivery reaches its write; one that throws before is lost, and no redelivery changes anything |
| `Webhooks.LatestReachingStampWins` | src/webhooks.ts:130-157 | among deliveries of which some throw, the latest stamp among the events that reached their write wins |
| `Webhooks.BillingWebhook.ApplySubscriptionState` | src/webhooks.ts:214-300 | unknown organizations, unmapped words, stale stamps and subscriptions bound elsewhere change nothing; anything else sets the status its word stands for (a trial is active, a paused or cancelled subscription lapsed), the event's stamp, and the ids it names |
| `Webhooks.LatestStampWins` | src/webhooks.ts:205-283 | stamped events of one organization, in any order and any number of times, end in the status of a latest-stamped one, unless the organization already stood at a later stamp |
| `Webhooks.OrderDoesNotMatter` | src/webhooks.ts:205-283 | with distinct stamps every order ends in the same status and stamp |
| `Webhooks.InterleavingSettles` | src/webhooks.ts:262-298 | the same when checks and writes of several deliveries interleave, stamped or not: the organization stands where the events finished since the last unstamped one put it; the check may be out of date, the guard in the write is not |
| `Webhooks.MixedSettles` | src/webhooks.ts:205-285 | with unstamped events among them: the organization stands where the events first delivered since the last unstamped one put it, from where that one left it |
| `Webhooks.LatestStampWinsExactlyWhen` | src/webhooks.ts:205-285 | the latest stamp wins exactly when an event so stamped is first delivered after the last unstamped one and the organization did not already stand at a later stamp; otherwise it has another stamp or none, and the status of the last unstamped event, of the latest-stamped event since, or the one it had |
| `Webhooks.UnstampedEventsLoseTheOrder` | src/webhooks.ts:266-285 | an older event delivered after one without a stamp undoes a newer one, whatever the stamps |
| `Waitlist.WaitlistCsv` | src/waitlist.ts:179-187 | the header and one line per row, each ended by CRLF, every cell guarded and quoted |
| `Waitlist.EscapeQuotes` | src/waitlist.ts:172-176 | every quote is doubled, nothing else changes |
| `Waitlist.Guard` | src/waitlist.ts:172-175 | a guarded text never begins like a formula; it is the text after one quote mark exactly if the text does, and otherwise the text |
| `Waitlist.ExportReadsBack` | src/waitlist.ts:172-187 | read by section 2 of RFC 4180 the export gives the header and then one record per row, field by field the column's text, with one quote mark before it exactly if it starts as a formula does, and nothing for an absent value |
| `Waitlist.LineReadsBack` | src/waitlist.ts:182-184 | one line reads back as the four guarded texts of its row |

## Left out

- Usage.AttributeCost: shares are computed in exact integers; the program's own products of doubles are taken to be exact, which they are below 2^53.
- Pricing.ReservedMaximumCovers: prices are exact reals; the last-place error of double products is not modelled.
- DeletionResult.FinishedJobIsExact: its byte total assumes that rows on one key record one length, as identical bytes do.
- DeletionJobs.Deletions.Resume: nobody else writes to any table between two calls of one job; `DeletionAmongOthers.TargetIsGoneAmongOthers` is what stays true when others write outside the target. A worker that is killed mid-batch loses that batch's counts, which is not modelled.
- DeletionAmongOthers.TargetIsGoneAmongOthers: others neither touch the targeted runs nor add matching ones while the job lasts, and nobody writes during a call; nothing is said of the receipt.
- UploadAccounts.QuotaIsConserved: assumes one length per hash, a plan limit that does not change, and deletion of committed runs only, as deletion never releases a reservation. Operations are whole; statement by statement it is `StorageBooks.OrderlyRunsAreRight`.
- UploadAccounts.NoFloorIsMet: operations are whole; when a floor is met otherwise is `StorageRaces.SafeExactlyWhen`.
- UploadIntegrity.FailureIsSafeExactlyWhen: objects and rows go in one step; with other statements in between the condition is that of `StorageRaces.SafeExactlyWhen`.
- UploadIntegrity.CommittedRowsAreIntact: operations are whole; statement by statement it is `StorageSound.CommittedRowsKeepTheirObjects`.
- StorageBooks.OrderlyRunsAreRight: assumes one length per hash, no empty artifact, a plan limit that does not change, and deletion of committed runs only. A declaration, and the transactions that end a commit and a failure, are one step each. A signed PUT is taken to arrive only while a row is pending on its key; the few seconds a URL outlives its commit are not modelled.
- Ceilings.CountersAreFaithful: no call commits so late that its own rows may have been dropped, which takes a week; what happens then is `RateLimits.LimitsHoldForExactlyAWeek`. The count of refusals is written after the rollback and kept, but nothing is claimed of it.
- CropGrounding.GroundingFromSidecar: the messages about dropped crops are not modelled, nor is base64 decoding.
- CiBatch.CiBatches.Collect: one collector per batch; two at once would refund or meter a call twice, though not book its dollars twice (`CiBatch.CollectingTwiceBooksOnce`).
- EconomicPath.MoneyPath.HostedExplain: what the cache answers and how many frames of a run were charged are given; two requests of one key or run between these checks and their reservations are not interleaved.
- EconomicPath.MoneyPath.Explain: storing the findings, the history fields and the budget alerts are not modelled.
- The organization and key months of the budget are read and checked, but claims about interleavings are made for the global day only, since the meter is written after settlement.
- A month is an uninterpreted function of the UTC day.
- SQL text, drivers, connection pools and migrations: only the effect of each statement is modelled.
- Hashing, signatures, tokens and encodings: a hash is an opaque value.
- The bucket and file drivers and the signing of URLs: only head, get, put and delete remain.
- Erasing an organization: one prefix delete and a snapshot of totals.
- Two workers on one deletion job: a claim that is lost changes nothing, and nothing more is said of it.
- Per-frame statistics written with a declaration, and the repository lookup by name: a repository is an id.
- Completed payments and refunds among the webhooks, and the field paths of the processor's envelope.
- The provider's SDK, mail, alerts, prompts, secret scanning, HTML, sign-in flow, sessions, roles and the web application.
- Trend charts and report assembly: mostly SQL aggregates.
