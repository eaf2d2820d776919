# A verified model of the back office

The repository is a FastAPI and SQLAlchemy back office for construction companies. Some of its
files hold small state machines, indexes and ledgers whose promises last over whole runs. This
project states them in Dafny: tables are maps and sequences, each handler is a step of a machine,
and beside each machine a class updates the same tables in place and is proved equal to the step.
What each operation does is also told on the fields of the rows, without the functions that the
machines and the classes share.

- `CacheKeys`, `CacheAnswers`, `CacheProtocol`, `CacheRuns`, `CacheRequests`, `CacheHandlers`: the versioned
  read-through cache of the AI predictions, as an interleaving of single steps of any number of readers and writers. When
  writes are visible before their bump and queries see what was bumped before the version fetch, no
  answer misses a write whose bump had finished: over all runs this takes both disciplines and a
  version key that exists at the start, and holds exactly with all three. The code keeps neither
  discipline: the session commits after the handler and thus after the bump (`app/db/session.py:12-18`),
  and the authentication query opens the session's snapshot before the version is fetched
  (`app/core/dependencies.py:49-53`; InnoDB's default isolation level is repeatable read). Keys are printed with `:` between the fields, so filters that
  contain `:` or are the text `None` can share a key, and a reader can be handed another request's
  page; which sets of requests are safe from that is proved exactly. The material recommendations
  (`app/api/material.py:5955-5963`) insert predictions without any bump, and are hidden by pages read before.
- `Reconciliation`, `BankImport`: the greedy bank matcher over an index by amount refines a plain
  scan, is one-to-one exactly when no entry has two lines on the bank account, leaves nothing to
  match, and is within a factor of two of any assignment. Importing a file twice adds nothing
  exactly when its amounts are whole cents.
- `Billing`, `BillingRows`, `BillingRuns`, `BillingHandlers`, `Payables`: bills, approvals, contractor payments and
  converted quotations write one bill from four modules. The joint invariant is kept by every step
  except exactly the updates that put a decided or posted bill back to Draft or Submitted;
  `RABillUpdate` admits a status (`app/schemas/billing.py`), so such updates exist, and one makes a
  bill post twice. A bill converted from a quotation has no approval, and its total is
  its net, so its GST is posted on top.
- `Boq`: item versions, frozen history, the unique key, the conservation of the estimate, and when
  stored totals and variances agree with their factors.
- `Ledger`, `LedgerHandlers`, `Reports`, `Forest`, `Aging`, `TwoSource`: the double-entry ledger over
  all shown posting paths and which requests keep it balanced, the trial balance and the balance
  sheet, the account tree, vendor aging and the report paged out of two tables.
- `Chat`, `ChatRows`, `ChatHandlers`, `Paging`: group membership, private pairs, and cursor paging while messages arrive.
- `Attendance`: hours, overtime rate, wage, and the four records a check-out links.
- `Prelude`, `Text`, `Money`: shared vocabulary, decimal text and the two roundings (a DECIMAL(18,2)
  column stores half away from zero, `Decimal.quantize` rounds half to even).

Stored amounts are whole cents; requests are exact rationals (`real`), and what a DECIMAL column
keeps of them is written out. Rows an unordered query may return in any order are parameters
(`pick`, `base`, `order`). A BOQ item's category is that of its activity, given with the payload.

Where the code and its texts differ, the model follows the code: `update_account` refuses only a
parent that is the account itself, so longer cycles can be made; `is_balanced` compares debit-minus-credit
sums of assets and of liabilities, so it holds for a balanced ledger only when liabilities and
equity net to zero; the bill posting debits the total but credits gross plus GST, while the
total of a converted quotation adds no GST for its percentage; contractor payments are compared after
rounding but recorded unrounded, so half a cent can overpay a bill; manual journals are compared exactly
but stored line by line, so an accepted entry can be out of balance; wage accounts are looked up by code
without the company.

## Model

| member | source | states |
|---|---|---|
| CacheKeys.KeysMeet | app/api/ai.py:71-73 | two versions and requests get one cache key exactly when the versions are equal and the requests print alike, colons included |
| CacheKeys.PlainRequestsAreTold | app/api/ai.py:71-92 | requests whose filters print unambiguously and alike select the same rows |
| CacheKeys.AmbiguousFiltersShareAKey | app/api/ai.py:71-87 | two different requests that share a key, with different answers |
| CacheKeys.KeyIsNotVersionKey | app/api/ai.py:108-109 | no page or item key is ever the version key |
| CacheKeys.InsertGrowsTotal | app/api/ai.py:79-92 | a new prediction changes the unfiltered page |
| CacheAnswers.EvalTells | app/api/ai.py:75-119 | a page has min(limit, max(0, total - offset)) rows that pass the filters, newest first, the k-th with exactly offset + k newer ones; a detail is the row with that id, not found only when there is none |
| CacheAnswers.SearchFinds | app/api/ai.py:82-85 | a search finds the module names that hold its letters somewhere, in either case, `_` standing for any letter |
| CacheAnswers.ApplyWrites | app/api/ai.py:42-162 | an insert appends a row with a larger id, an update writes the given fields of that row only, a delete takes that row only; ids keep rising |
| CacheRuns.StepKeepsInv | app/cache/redis.py:29-69 | fetch, lookup, query, store, publish, bump and expiry in any orderly order keep every stored entry justified for its version and every reader's version at most the current one |
| CacheRuns.FreshUnderEveryInterleaving | app/api/ai.py:55-97 | from an existing version key every finished read returns the answer of a request that prints like its own, on a table that includes every write whose bump finished before its version fetch, when queries see those writes |
| CacheRuns.MissingKeyGoesStale | app/cache/redis.py:53-69 | from a missing version key a run that keeps every discipline returns a page older than a finished write |
| CacheRuns.FreshExactlyWhen | app/cache/redis.py:29-69 | every run that keeps a given order is fresh if and only if that order has bumps after visible writes and snapshots after version fetches, and the version key exists at the start |
| CacheRuns.FreshExactlyFromAnExistingKey | app/cache/redis.py:53-69 | so freshness over all orderly runs holds if and only if the version key exists at the start |
| CacheRuns.VisibleAfterBumpGoesStale | app/db/session.py:12-18 | bumping before the write is visible lets a later reader return the old page, whatever snapshots are taken |
| CacheRuns.EarlySnapshotGoesStale | app/core/dependencies.py:49-53 | with every write visible before its bump, a query on a snapshot older than the version fetch stores the old page under the new version, and the next reader returns it |
| CacheRequests.OwnAnswersIff | app/api/ai.py:71-97 | from an existing version key, over all orderly runs of requests of a set, every finished read answers its own request on a table with every write it had seen bumped, if and only if no two requests of the set print alike and differ on a table that writes lead to |
| CacheRequests.MixUp | app/api/ai.py:71-97 | two such requests have an orderly run in which one reader is handed the other's page |
| CacheRequests.PlainReadersGetTheirOwnAnswer | app/api/ai.py:71-97 | so readers whose filters hold no colon and are not the word None always get their own answers |
| CacheRequests.NoneIsConfusing | app/api/ai.py:72-87 | on every table the unfiltered page and the one for a module called None can be mixed up |
| CacheHandlers.CacheGetJson | app/cache/redis.py:29-43 | the stored value, none without a server or key |
| CacheHandlers.CacheSetJson | app/cache/redis.py:46-50 | exactly the one key is overwritten |
| CacheHandlers.GetCacheVersion | app/cache/redis.py:53-62 | 1 for a missing or unreadable version, else the number |
| CacheHandlers.BumpCacheVersion | app/cache/redis.py:65-70 | a missing key becomes 1, a number grows by one |
| CacheHandlers.ReadThroughIsOneReader | app/api/ai.py:71-97 | a whole read is four consecutive steps of one reader of the machine, on hit, miss and not-found |
| CacheHandlers.CoherentReadIsTransparent | app/api/ai.py:71-121 | run alone, a cached read returns what the table holds now for a request in use that prints alike, the reader's own when those are told apart, and keeps the store coherent, as long as every insert is bumped for |
| CacheHandlers.UnbumpedInsertIsHidden | app/api/material.py:5955-5963 | a prediction inserted without a bump is hidden by a page read before it |
| CacheHandlers.UntoldReadsMixUp | app/api/ai.py:71-97 | two requests that are not told apart: the second read returns the first one's answer |
| CacheHandlers.BumpRestoresCoherence | app/api/ai.py:55-57 | after a bump the store is coherent with any new table |
| CacheHandlers.PredictionDesk.Read | app/api/ai.py:62-121 | leaves exactly the read-through store; the answer is what the rows tell about a request in use that prints alike, and about the request itself without a cache or when those are told apart |
| CacheHandlers.PredictionDesk.Write | app/api/ai.py:42-162 | refused for a missing row only; the rows change as the write says, field by field, and it bumps only then and stays coherent |
| Reconciliation.JoinedDistinctIff | app/api/accountant.py:2482-2499 | the joined rows repeat no entry exactly when each entry has at most one line on the account |
| Reconciliation.JoinedPerLine | app/api/accountant.py:2482-2499 | an entry is joined once per line on the account |
| Reconciliation.PicksAreApart | app/api/accountant.py:2514-2539 | no pool position is picked twice |
| Reconciliation.ScanIsMaximal | app/api/accountant.py:2514-2539 | an unmatched transaction finds every entry it wants taken |
| Reconciliation.MatchesAreOneToOne | app/api/accountant.py:2482-2541 | new matches are different entries, none matched before |
| Reconciliation.GreedyIsWithinTwo | app/api/accountant.py:2502-2539 | no one-to-one assignment matches more than twice as many |
| Reconciliation.FactorTwoIsReached | app/api/accountant.py:2502-2539 | when the first transaction wants two entries and the second only the one it takes, twice as many can be matched |
| Reconciliation.FitsIff | app/api/accountant.py:2507-2531 | an entry fits a pending transaction of the account when its first line there has the amount on the debit side if that is positive, else on the credit side, and the days are at most three apart or missing |
| Reconciliation.ReconciledIsGreedy | app/api/accountant.py:2502-2539 | each transaction in turn takes the first free row that fits, and stays unmatched only when every row that fits was matched before or is taken earlier |
| Reconciliation.NeverTwiceIffDistinct | app/api/accountant.py:2494-2499 | for a given pool no run ever matches an entry twice if and only if the pool holds each entry once |
| Reconciliation.RunsNeverMatchTwiceIff | app/api/accountant.py:2482-2539 | whatever new transactions come in, a run over the joined entries matches none twice if and only if every entry not matched yet has at most one line on the bank account |
| Reconciliation.RunKeepsFlags | app/api/accountant.py:2533-2536 | match and flag stay set together, matches are never lost |
| Reconciliation.RunSettles | app/api/accountant.py:2482-2541 | after a run no pending transaction wants an unmatched entry |
| Reconciliation.SecondRunMatchesNothing | app/api/accountant.py:2461-2541 | an immediate second run matches nothing and changes nothing |
| Reconciliation.LiveHasFirst | app/api/accountant.py:2516-2531 | the first date-compatible candidate of the amount's bucket is the first compatible unused entry of the pool |
| Reconciliation.RemoveFromIndex | app/api/accountant.py:2533-2539 | removing the match from its bucket gives the index of the smaller pool |
| Reconciliation.BankDesk.LineAmount | app/api/accountant.py:2507-2512 | none exactly without a line on the account, else the debit of the first such line when positive, else its credit |
| Reconciliation.BankDesk.IndexByAmount | app/api/accountant.py:2502-2512 | per amount the unmatched joined rows in row order |
| Reconciliation.BankDesk.BestMatch | app/api/accountant.py:2521-2531 | the first candidate within three days or without a date, none when there is none |
| Reconciliation.BankDesk.TakeMatch | app/api/accountant.py:2516-2539 | one turn equals one step of the plain scan, index included |
| Reconciliation.BankDesk.AutoRunBankReconciliation | app/api/accountant.py:2461-2541 | the transactions end up as the plain first-compatible scan marks them; told on lines and days, each takes the first free row that fits, the count is that of the changed ones, and rows that differ by id are matched once each |
| BankImport.AddedOnce | app/api/accountant.py:2435-2453 | added rows are unknown and differ from each other by key |
| BankImport.NoKeyIsLost | app/api/accountant.py:2435-2453 | every parsed row is known or one of its key is added |
| BankImport.ImportedHolds | app/api/accountant.py:2420-2453 | exactly the rows are added that the account has no transaction of with their date, exact amount and reference and that are first of these in the file, in file order, field by field |
| BankImport.ImportKeepsFlags | app/api/accountant.py:2443-2452 | existing transactions stay, new ones are pending on the account |
| BankImport.SecondImportAddsNothingIff | app/api/accountant.py:2420-2453 | importing the file again adds nothing if and only if all its amounts are whole cents |
| BankImport.BankTable.ImportBankTransactions | app/api/accountant.py:2376-2457 | the table gains exactly these rows, pending on the account, and added plus skipped is the file's length |
| BillingRuns.StepKeepsInvIff | app/api/billing.py:439-525 | every step of billing, conversion, approvals and payables keeps the joint invariant, except exactly an accepted update to Draft or Submitted of a bill that is posted or has a decided approval |
| BillingRuns.DecidedNeverChanges | app/api/approval.py:439-520 | a decided approval row is never changed by any step |
| BillingRuns.DecidedStaysOverRuns | app/api/approval.py:439-626 | nor over any run without such updates |
| BillingRuns.JointBillInvariant | app/api/approval.py:191-213 | over all such interleavings from empty tables: an open bill has at most one approval, pending, and no journal; a bill not converted from a quotation has one; at most one pending approval an entity; at most one J-RAB journal a bill; nobody decides their own request |
| BillingRuns.StatusMoves | app/api/billing.py:558-693 | apart from updates a status moves along the life cycle only, and approve or reject move only the bill of a pending request of somebody else |
| BillingRuns.DecidedIsNeverPosted | app/api/approval.py:467-516 | a bill decided through the approval workflow before it was posted gets no J-RAB journal over any run that reopens no decided or posted bill |
| BillingRuns.ReopeningPostsTwice | app/api/billing.py:502-522 | approve, update back to Submitted, approve: two J-RAB journals for one bill, for any submitted bill, with approvals or without |
| BillingRuns.PostingDriftsByDeductions | app/api/billing.py:628-662 | for every bill priced by create or update, fractions of a cent included: the journal misses balance by the stored deductions, plus what storing net and deductions apart carries, less what the exact total carries |
| BillingRuns.PostingDriftIff | app/api/billing.py:628-662 | the drift is exactly the deductions if and only if these two carries of the request agree |
| BillingRuns.WholeCentsCarryNothing | app/api/billing.py:182-189 | both carries are zero for whole-cent net and deductions and a percentage of two decimals |
| BillingRuns.HalfCentNetDrifts | app/api/billing.py:628-662 | a bill without deductions whose journal is a cent out |
| BillingRuns.HalfCentDeductionsVanish | app/api/billing.py:628-662 | a bill whose stored deductions are a cent and whose journal balances |
| BillingRuns.DriftIsWithinACent | app/api/billing.py:628-662 | with whole-cent deductions and a two-decimal percentage of at most 100 the drift is within a cent of the deductions |
| BillingRuns.RowsArePriced | app/api/billing.py:439-525 | over every run each bill row is what some request, update or quotation stores, so the drift results speak of all rows |
| BillingRuns.DriftByPricing | app/api/billing.py:628-662 | the journal of any such row misses balance by its deductions and what its pricing gains and loses |
| BillingRuns.QuotationDrifts | app/api/quotation.py:2713-2744 | a quotation of 100.00 at 18% is posted 18.00 out of balance without deductions |
| BillingRuns.PaymentIsExactIff | app/api/accountant.py:992-1072 | a payment never overpays and marks Paid exactly at full payment if and only if it is whole cents or stores below the pending sum |
| BillingRuns.HalfCentOverpays | app/api/accountant.py:992-1072 | 2.5 cents on a pending 2 cents is accepted and overpays |
| BillingRuns.StepKeepsPaidIff | app/api/accountant.py:992-1072 | paid stays within [0, total] under a step exactly when the stored payment fits the pending sum, the total of the patched bill covers what is paid and no quotation is converted below zero |
| BillingRuns.PaidWithinOverRuns | app/api/accountant.py:978-1072 | hence over every such run |
| BillingRuns.VouchersFollowPayments | app/api/accountant.py:1037-1067 | over every run contractor-payable debits, bank credits and recorded payments grow alike |
| BillingRuns.LinksDiffer | app/api/accountant.py:992-996 | payment links of different bills differ, so payments never count for another bill |
| BillingRows.PricedStores | app/api/billing.py:182-215 | deductions above quantity x rate are refused; else every amount is computed exactly and kept as the nearest cent |
| BillingRows.PatchedHolds | app/api/billing.py:455-520 | the fields given enter the amounts, the others as stored |
| BillingRows.PostingHolds | app/api/billing.py:608-662 | total against gross, and the tax on the stored net when there is any |
| BillingRows.RequestIff | app/api/approval.py:179-213 | a request needs a known kind, an entity that stands and no pending row of both, whatever the case |
| BillingRows.ResolveHolds | app/api/approval.py:439-520 | another user's pending row only; the row gets verdict and decider, a bill its status, nothing else changes |
| BillingRows.PayHolds | app/api/accountant.py:978-1072 | an approved bill and at most what is left after quantizing; payment and voucher of the nearest cent, Paid when the exact amount was all that was left |
| BillingHandlers.BillingOffice.CreateRaBill | app/api/billing.py:56-229 | refused for senseless fields or deductions above gross; else a Draft under the next number with the nearest cents of each exact amount and one pending approval |
| BillingHandlers.BillingOffice.ConvertQuotation | app/api/quotation.py:2721-2744 | a Draft without an approval; gross, net and total all are the grand total |
| BillingHandlers.BillingOffice.UpdateRaBill | app/api/billing.py:439-525 | the fields given enter the row and its amounts, the others as stored, no other bill changes; or refusal without a change |
| BillingHandlers.BillingOffice.DeleteRaBill | app/api/billing.py:531-552 | the bill goes, all other tables stay |
| BillingHandlers.BillingOffice.SubmitRaBill | app/api/billing.py:558-575 | only a Draft is submitted |
| BillingHandlers.BillingOffice.ApproveRaBill | app/api/billing.py:580-668 | only a Submitted bill; the approval row found is granted, and one journal posts total, gross and the tax on net |
| BillingHandlers.BillingOffice.PayRaBill | app/api/billing.py:675-693 | only an Approved bill is marked Paid |
| BillingHandlers.BillingOffice.RequestApproval | app/api/approval.py:179-213 | refused for an unknown entity or while one is pending, whatever the case of the type |
| BillingHandlers.BillingOffice.ApproveRequest | app/api/approval.py:439-520 | only another user's pending request; decides the row and the bill together |
| BillingHandlers.BillingOffice.RejectRequest | app/api/approval.py:542-626 | the same with remarks that are not blank |
| BillingHandlers.BillingOffice.PayContractorBill | app/api/accountant.py:978-1072 | payment, voucher and status as the exact comparison decides |
| Payables.SummaryMatchesLists | app/api/accountant.py:1095-1131 | total = paid + pending, and pending equals the outstanding list's sum if and only if no bill is overpaid |
| Payables.SummaryMatchesListsOverRuns | app/api/accountant.py:840-1131 | so the two agree over every run of billing and payments whose steps respect what is paid |
| Payables.OutstandingCoversPending | app/api/accountant.py:846-880 | the outstanding list never sums to less than pending |
| Payables.ItemsShow | app/api/accountant.py:936-975 | each bill with what is recorded on its own link, what that leaves, and the standing that follows |
| Payables.OutstandingKeeps | app/api/accountant.py:846-880 | the outstanding list is the items with something left to pay, in order |
| Payables.GroupPayments | app/api/accountant.py:936-951 | the grouped map gives every link its per-bill sum |
| Payables.ListPayables | app/api/accountant.py:930-975 | each bill with paid, pending and standing |
| Payables.OutstandingPayables | app/api/accountant.py:840-882 | exactly the bills with something left to pay, in order |
| Payables.PayableSummary | app/api/accountant.py:1095-1131 | the sums over all bills |
| Boq.InsertFacts | app/api/boq.py:831-905 | inserted items follow the old ones, valid and with free keys |
| Boq.InsertHolds | app/api/boq.py:831-1103 | all payloads are inserted in order, or nothing is: exactly when one is senseless or clashes by name and category with a row of the group and version or an earlier payload |
| Boq.AddItemsHold | app/api/boq.py:831-1103 | the new items have the project, group and version of the first standing row, which is not approved, and the payloads' fields and nearest costs |
| Boq.UpdateItemHolds | app/api/boq.py:508-575 | accepted exactly for a latest, undeleted, unapproved item and a free key; the fields given are written, the others stay, and the costs follow |
| Boq.CreateVersionIff | app/api/boq.py:1136-1165 | a version is made of an approved, latest, undeleted item of a known group only |
| Boq.CreateVersionHolds | app/api/boq.py:1166-1215 | the new rows correspond in order to the undeleted rows of the old version: same project, name, category, quantity, unit cost and total, version one higher, latest, Active, Draft, no actual and no variance |
| Boq.VersionKeepsKeys | app/api/boq.py:1142-1215 | a new version never breaks the unique (group, version, name, category) |
| Boq.CopiesAreUnique | app/api/boq.py:1178-1215 | the copies differ among each other by key |
| Boq.StepKeepsInv | app/api/boq.py:147-1215 | versions in 1..current, latest means current, unique keys, under every step |
| Boq.RunKeepsInv | app/api/boq.py:147-1215 | the same over every run |
| Boq.QuantityPricesIff | app/api/boq.py:91-96 | a quantity costs the same before and after it is stored, at every unit cost of two decimals, if and only if it has three decimals |
| Boq.UnitCostPricesIff | app/api/boq.py:91-96 | a unit cost does, at every quantity of three decimals, if and only if it has two |
| Boq.FineQuantityMisprices | app/api/boq.py:91-96 | 0.0014 at 100.00 is accepted and costs 14 cents, but its stored factors multiply to 10 |
| Boq.CostsAgreeOverRuns | app/api/boq.py:147-1215 | over every run whose requests have three decimals in quantities and two in unit costs, every stored total is the rounded cost of its row, versions, approvals and recalculations included |
| Boq.TotalIsExactIff | app/api/boq.py:91-96 | a total is exactly quantity x unit cost if and only if that is whole cents |
| Boq.SmallItemIsStoredForNothing | app/api/boq.py:91-96 | 0.001 at 1.50 is stored with a total of nothing |
| Boq.VariancesAgreeIff | app/api/boq.py:91-96 | variance = total - actual is kept by every step except exactly a version that copies an item with a cost and an update to an overspent cost ending in half a cent |
| Boq.HistoryIsFrozen | app/api/boq.py:520-528 | an item that is not latest is changed by no BOQ handler |
| Boq.OldRowsOnlyBook | app/api/boq.py:520-528 | no step of any kind changes more of an old item than approval, actual cost and variance |
| Boq.HistoryStaysFrozen | app/api/boq.py:508-1215 | over every run an old item stays as it is, as long as no approval or recalculation names it |
| Boq.OldRowsOnlyBookOverRuns | app/api/boq.py:508-1215 | over every run at all only its approval, actual cost and variance can change |
| Boq.NewVersionIsEditable | app/api/boq.py:1168-1215 | after a new version its copies can be edited at once, and no older row of the group can |
| Boq.VersionConservesTheEstimate | app/api/boq.py:639-658 | a new version keeps every project's count and estimate and drops exactly the group's actuals |
| Boq.BoqBook.CreateBoqItem | app/api/boq.py:147-214 | a new group at version 1 with its first item |
| Boq.BoqBook.AddItemsToGroup | app/api/boq.py:831-1103 | all items added behind the first live parent, or nothing at all |
| Boq.BoqBook.UpdateBoqItem | app/api/boq.py:508-575 | patched, costs recomputed; refused for old, deleted or approved items and taken keys |
| Boq.BoqBook.DeleteBoqItem | app/api/boq.py:577-605 | only the status of a live, unapproved item changes |
| Boq.BoqBook.ClearLatest | app/api/boq.py:1168-1176 | the flag of one version is cleared, all else stays |
| Boq.BoqBook.CopyVersion | app/api/boq.py:1178-1215 | the undeleted rows of the version in order, with their names, categories and costs, as fresh drafts of the new one |
| Boq.BoqBook.CreateBoqVersion | app/api/boq.py:1136-1215 | group raised and renamed, old version retired and otherwise unchanged, such copies behind it; or refusal without a change |
| Ledger.LedgerConserves | app/api/accountant.py:1801-1821 | over every run of the posting paths and journal decisions, for any amounts and account lookups, posted credit minus debit grows by exactly the drifts of manual journals, approved bills and rewritten wages |
| Ledger.ManualBalancesIff | app/api/accountant.py:1801-1821 | an accepted manual journal balances as stored if and only if storing loses as much of its debits as of its credits |
| Ledger.WholeLinesLoseNothing | app/api/accountant.py:1801-1821 | nothing is lost of whole-cent lines |
| Ledger.HalfCentsUnbalance | app/api/accountant.py:1801-1821 | debits of half a cent twice against a credit of one cent are accepted and stored out of balance |
| Ledger.DriftIsDeductions | app/api/billing.py:628-662 | over every run, for any account lookups, the drift is the deductions plus what the pricings of the approved rows gain less what they lose, plus the drifts of other paths |
| Ledger.TrialBalanceDriftsByDeductions | app/api/accountant.py:2146-2191 | from an empty ledger, for bills priced by requests or quotations and check-outs through two fixed accounts: credit minus debit is the deductions plus gains less losses of the pricings plus what manual journals lose; when those lose alike it is the deductions if and only if gains and losses agree |
| Ledger.RewageKeepsNetIff | app/api/attendance.py:430-439 | rewriting a wage journal keeps its balance exactly in nine stated combinations of the roles in which its two accounts are looked up, swapped lookups included |
| Ledger.RewageStepIff | app/api/attendance.py:405-439 | so a check-out leaves posted credit minus debit alone exactly in these cases |
| Ledger.EveryEntryBalancesIff | app/api/accountant.py:1801-1821 | over such runs every entry balances at the end if and only if every single request balances as stored, told from the request alone |
| Ledger.CleanRunBalances | app/api/billing.py:628-662 | so with whole-cent manual lines and bills, no deductions and no GST on quotations, every entry balances and the ledger nets to zero over every run |
| Ledger.AppendedPosts | app/api/accountant.py:1553-1620 | which events post an entry, and its status, number, creator and lines account by account: manual, bill, contractor, petty cash, TDS and wage |
| Ledger.ChangedRewrites | app/api/attendance.py:405-439 | otherwise a wage rewrites the lines on its two accounts in the first entry of its number, a decision only the status of an entry with a creator |
| LedgerHandlers.JournalBook.CreateJournalEntry | app/api/accountant.py:1796-1825 | accepted exactly when the exact debits equal the exact credits and no line is empty; the stored entry nets to zero if and only if rounding loses as much on both sides |
| LedgerHandlers.JournalBook.PostBill | app/api/billing.py:608-662 | one more posted entry J-RAB: total debited to the receivable, gross credited to revenue, and the tax on net to the GST account only when positive |
| LedgerHandlers.JournalBook.PostPettyCash | app/api/accountant.py:1553-1620 | two equal lines of the stored amount in the direction of the cash, positive amounts only; the entry nets to zero |
| LedgerHandlers.JournalBook.PostWage | app/api/attendance.py:405-439 | one wage journal per expense, rewritten when it exists |
| LedgerHandlers.JournalBook.DecideJournal | app/api/approval.py:467-516 | only a journal with a creator changes status |
| Reports.TypesPartition | app/api/accountant.py:2229-2247 | the five account types split the company's lines |
| Reports.AccountingEquation | app/api/accountant.py:2201-2280 | assets + liabilities + equity before earnings equals profit, and is_balanced holds exactly when liabilities and that equity net to zero |
| Reports.BalanceSheet | app/api/accountant.py:2195-2280 | grouped rows sum to the lines, dated for the rows, undated for the profit |
| Reports.CompanyTrialBalance | app/api/accountant.py:2150-2191 | without straddling entries a company's lines net to what its own entries net to |
| Reports.EveryCompanyBalances | app/api/accountant.py:2150-2191 | when every request balances as stored, every company's trial balance is even after the run, if no entry straddles companies |
| Reports.CleanCompaniesBalance | app/api/accountant.py:2150-2191 | as it is after every run of whole-cent requests without deductions |
| Reports.PairMovesBalances | app/api/accountant.py:1051-1067 | a two-line posting moves exactly its two balances, by its amount |
| Reports.PettyCashMovesCash | app/api/accountant.py:1599-1620 | cash out lowers the cash balance and raises the category, cash in the reverse |
| Reports.PaymentsMoveLiabilities | app/api/accountant.py:2860-2873 | contractor payments and TDS lower the liability debited and the account credited, nothing else |
| Reports.BillMovesBalances | app/api/billing.py:628-662 | an approved bill raises the receivable by its total, lowers revenue by its gross and GST by the tax, and moves no other balance |
| Reports.OneMoreLine | app/api/accountant.py:2229-2247 | what one line adds to the sums by type, company and account |
| Reports.RowsOfAccounts | app/api/accountant.py:2150-2191 | one row for each owned account of the grouping, in its order, with both columns of that account |
| Reports.RowsTotalTheLines | app/api/accountant.py:2150-2191 | the column totals of the grouped rows are the totals over the lines |
| Reports.TrialBalance | app/api/accountant.py:2146-2191 | one row per owned account, both column totals, and their difference is the company's net |
| Forest.MakeNodes | app/api/accountant.py:404-416 | a fresh childless node for each account |
| Forest.Attach | app/api/accountant.py:418-423 | the node goes to the end of its parent's children and nowhere else |
| Forest.GetAccountsTree | app/api/accountant.py:398-425 | a node per account id; under each node the accounts whose parent field is that id, given and not 0, in account order, and among the roots exactly the accounts without such a parent |
| Forest.PlacedOnce | app/api/accountant.py:418-423 | every account is placed once: under its parent or among the roots |
| Forest.TreeIsBuilt | app/api/accountant.py:418-423 | the parent links are exactly the parent fields that are given, not 0 and ids of accounts |
| Forest.EndsIffNoCycle | app/api/accountant.py:404-425 | a parent chain ends if and only if it enters no cycle |
| Forest.LevelHolds | app/api/accountant.py:404-425 | a level of the tree holds an account once exactly when its chain ends after that many links |
| Forest.ReachableIffNoCycle | app/api/accountant.py:404-425 | an account is reachable from the roots if and only if no walk through parent fields from it comes to an account twice |
| Forest.FlattenIsPermutation | app/api/accountant.py:404-425 | with acyclic parents flattening the tree gives every account exactly once |
| Forest.ReparentKeepsAcyclicIff | app/api/accountant.py:620-659 | only an account as its own parent is refused; any other parent keeps the accounts acyclic if and only if it is not below the account |
| Aging.BucketsPartition | app/api/accountant.py:3494-3517 | the five buckets of any group are non-negative and sum to its outstanding |
| Aging.DebtGoesByAge | app/api/accountant.py:3503-3517 | a bill owes in the bucket of its age in days: none, 1-30, 31-60, 61-90, over 90 |
| Aging.OutstandingIdentity | app/api/accountant.py:3494-3502 | outstanding = billed - paid + overpayments - bills with a null payment |
| Aging.OutstandingIff | app/api/accountant.py:3494-3502 | with recorded payments outstanding is at least billed minus paid, and equal exactly when no bill is overpaid |
| Aging.NullPaymentHidesDebt | app/api/accountant.py:3494-3502 | a bill with a null payment is billed but owes nothing |
| Aging.TotalsLeaveNoBillOut | app/api/accountant.py:3540-3564 | when every bill has one of the named vendors, billed, paid, outstanding and all buckets cover all bills |
| Aging.ReportCoversAll | app/api/accountant.py:3540-3564 | so the report's totals are those of all selected bills |
| Aging.OneMoreBill | app/api/accountant.py:3479-3517 | a live bill of the supplier and project asked for adds its total, payment and debt to the sums, the debt in the bucket of the days it is late, and no other bill adds anything |
| Aging.RowsOfVendors | app/api/accountant.py:3529-3577 | one row for each vendor with an id other than 0, in group order, with that vendor's sums |
| Aging.SumGroups | app/api/accountant.py:3529-3577 | adding up the rows gives the sums over all bills of the named vendors |
| Aging.VendorPayablesAging | app/api/accountant.py:3479-3587 | rows and totals split outstanding into the buckets, and overdue is exactly the four late ones |
| TwoSource.PageItems | app/api/accountant.py:3650-3711 | a page is the slice [skip, skip+limit) of invoices followed by RA bills: its k-th item shows the row at skip + k, field by field |
| TwoSource.PagesTile | app/api/accountant.py:3650-3711 | consecutive pages give each item once, in order |
| TwoSource.SummaryTotals | app/api/accountant.py:3602-3648 | billed, received and outstanding are the sums over the whole listing |
| TwoSource.SummaryIsSumOfPages | app/api/accountant.py:3602-3711 | and so over the items of all pages |
| Chat.MembershipInvariant | app/api/chat.py:1049-1070 | over every run from empty tables: every group has members and one admin, nobody is a member twice, private chats are unique pairs |
| Chat.DeletedIffLastLeaves | app/api/chat.py:2064-2078 | a group disappears exactly when its last member leaves |
| Chat.RemoveKeepsInv | app/api/chat.py:1632-1666 | removing or kicking keeps the invariant; the only admin cannot go |
| Chat.LeaveCounts | app/api/chat.py:2041-2078 | leaving takes one row, leaves one admin when anybody remains, and closes an empty group |
| Chat.TransferKeepsInv | app/api/chat.py:2084-2125 | a transfer keeps the invariant and touches the members of its chat only |
| Chat.HavingIffPair | app/api/chat.py:124-140 | the count-and-sum test holds exactly when the two users are all the members |
| Chat.CallTouchesNoPrivate | app/api/chat.py:93-99 | every call changes the members of one chat, never of a private one |
| Chat.PrivateNeverChanges | app/api/chat.py:93-160 | over every run a private chat keeps its two members |
| ChatRows.MembershipOnRows | app/api/chat.py:1049-1070 | on the rows: over every run a group has exactly one admin row, nobody two rows in a chat, a private chat two rows |
| ChatRows.CreateGroupHolds | app/api/chat.py:1040-1070 | the creator's row is the only admin, one row for each other id, in order |
| ChatRows.AddHolds | app/api/chat.py:1378-1433 | by an admin; one plain row for each id without one, in order, the old rows unchanged |
| ChatRows.BulkRemoveHolds | app/api/chat.py:1445-1476 | by an admin; exactly the listed plain rows of the chat go |
| ChatRows.RemoveHolds | app/api/chat.py:1621-1666 | who may be removed or kicked by whom, and that exactly the target's rows of the chat go |
| ChatRows.LeaveHolds | app/api/chat.py:2023-2080 | the only admin's first other member becomes admin, the leaver's row goes, and the group with it when nobody else was there |
| ChatRows.TransferHolds | app/api/chat.py:2084-2125 | the target becomes admin and the caller plain, every other row keeps user and role, none is added or lost |
| ChatRows.PrivateHolds | app/api/chat.py:106-160 | refused for oneself; an existing pair leaves everything as it is, otherwise one new private chat of two plain rows |
| ChatHandlers.ChatDesk.CreateGroupChat | app/api/chat.py:1040-1070 | the creator is admin, the others members, each once |
| ChatHandlers.ChatDesk.AddGroupMembers | app/api/chat.py:1378-1433 | absent users are inserted as members, by an admin only |
| ChatHandlers.ChatDesk.RemoveMultipleMembers | app/api/chat.py:1445-1476 | the listed members go, admins stay |
| ChatHandlers.ChatDesk.RemoveOrKick | app/api/chat.py:1621-1666 | never the creator or the last admin, and oneself only by kick |
| ChatHandlers.ChatDesk.LeaveGroup | app/api/chat.py:2023-2080 | the last admin promotes the first other member; nobody left closes the group |
| ChatHandlers.ChatDesk.TransferAdminRole | app/api/chat.py:2084-2125 | demotes the caller and promotes the target |
| ChatHandlers.ChatDesk.CreatePrivateChat | app/api/chat.py:106-160 | an existing pair is reused, else one new chat of two |
| Paging.CursorPagingIsStable | app/api/chat.py:592-601 | whatever arrives, is edited or deleted between pages, the messages come strictly descending and include everything present at the first fetch, unless the limit is 0 |
| Paging.FollowFinishes | app/api/chat.py:592-601 | a client reaches an empty page after at most as many fetches as the newest id |
| Paging.InOrderPagingIsTheListing | app/api/chat.py:592-601 | when messages arrive in id order the pages are exactly the first fetch's listing |
| Paging.AllMarkedIff | app/api/chat.py:655-657 | opening a page marks all messages of others read exactly when it holds at most fifty of them |
| Paging.ScrollingReadsEverything | app/api/chat.py:653-713 | with pages of up to fifty, scrolling to the end marks everything others had sent |
| Paging.PageHoldsTheNewest | app/api/chat.py:579-601 | the page has the newest messages of the chat below the cursor, as many as the limit and a hundred allow, the k-th with exactly k newer ones |
| Paging.MarkedIff | app/api/chat.py:655-657 | a message on the page is marked exactly when it is somebody else's and fewer than fifty such are newer |
| Paging.MessageTable.SendMessage | app/api/chat.py:243-284 | the next id, read by its sender |
| Paging.MessageTable.DeleteMessage | app/api/chat.py:2236-2260 | only the flag of that message |
| Paging.MessageTable.MarkRead | app/api/chat.py:659-713 | exactly the given messages get delivery and read rows, times already set stay |
| Paging.MessageTable.GetMessages | app/api/chat.py:570-713 | such a page, with id, sender and flag of each message and its text unless deleted, and exactly such marks for the reader |
| Attendance.HoursSplit | app/api/attendance.py:282-290 | regular plus overtime hours are the total |
| Attendance.RateIsNonNegative | app/api/attendance.py:297-321 | a negative base rate pays nothing, so no overtime rate is negative unless the policy is |
| Attendance.WageGrowsWithHours | app/api/attendance.py:290-327 | unless daily wage or policy are negative the wage never falls with hours |
| Attendance.WageIsWithinHalfACent | app/api/attendance.py:325-327 | the wage is within half a cent of the exact amount |
| Attendance.FullDayPaysTheDailyWage | app/api/attendance.py:290-325 | eight hours pay the daily wage, each further hour the overtime rate |
| Attendance.RateHolds | app/api/attendance.py:297-323 | daily wage and base rate are the labour's own or its type's; a fixed policy sets the overtime rate, another multiplies a positive base, on Sundays by its own factor if it has one |
| Attendance.WageHolds | app/api/attendance.py:282-327 | hours beyond eight are overtime, and the wage is the nearest cent, even on ties, of an eighth of the daily wage per regular hour and the rate per overtime hour |
| Attendance.BookedHolds | app/api/attendance.py:335-439 | an automatic expense of the day takes the amount, with its owner transaction, else both are new; the journal J-EXP carries the wage on the two accounts |
| Attendance.RewageCarriesIff | app/api/attendance.py:430-439 | a rewritten journal carries the new wage on both sides exactly when the looked-up accounts fit its lines |
| Attendance.StepKeepsInvIff | app/api/attendance.py:335-439 | every step keeps expense, owner transaction, debit and credit equal, except exactly a rewrite through other accounts |
| Attendance.CheckOutBooksTheWage | app/api/attendance.py:335-439 | after a paid check-out the day has one automatic expense, of the wage, with equal linked records |
| Attendance.CheckOutNeverRewrites | app/api/attendance.py:79-89 | the check-out of an attendance that is still open finds no expense of its day, as long as no labour row changes hands |
| Attendance.RecordsAgreeFromTheStart | app/api/attendance.py:79-439 | from empty tables, over every run in which no labour row changes hands, users with several rows included, and whatever accounts are looked up: one automatic expense a day, all records equal, a closed attendance behind each |
| Attendance.AttendanceDesk.CheckInUser | app/api/attendance.py:55-177 | one attendance for a user and day |
| Attendance.AttendanceDesk.ComputeWage | app/api/attendance.py:284-327 | hours, rate by policy and base rate, and the rounded wage |
| Attendance.AttendanceDesk.BookWage | app/api/attendance.py:335-439 | the upsert of expense, owner transaction and journal |
| Attendance.AttendanceDesk.CheckOutUser | app/api/attendance.py:181-439 | refused for another's or a closed attendance, or a paid one without project or accounts; unpaid for users who are no labour, else closed with hours, overtime and rate, and the wage booked on its project and day |
| Attendance.AttendanceDesk.ProxyCheckOutUser | app/api/attendance.py:691-735 | closes the attendance and books nothing |
| Money.QuantizedFacts | app/api/attendance.py:327-327 | quantizing keeps order and moves an amount by at most half a cent |
| Money.StoredFacts | app/api/accountant.py:1037-1046 | storing a finer amount exceeds its quantized cents by at most one |
| Money.StoredIsNearest | app/models/billing.py:39-44 | a two-decimal column keeps the nearest cent, and of two the one farther from zero |
| Money.QuantizedIsNearest | app/api/attendance.py:327-327 | quantizing gives the nearest cent, and of two the even one |

## Left out

- HTTP, authentication, permissions, tenant and project-access checks, rate limits: preconditions of the handlers.
- Notifications, activity logs, WebSocket and Redis publishing, file uploads, exports and generated documents: input and output.
- Other posting modules (journal.py, expense.py, invoice.py, vendor_bills.py, payment services): the ledger runs over the paths named above.
- Manual reconciliation matching: it does not check whether the journal is matched already, so the one-to-one results speak of automatic runs.
- The BOQ list cache: its key omits the approval status and approvals do not bump it; freshness is stated for the AI handlers.
- Work-order, measurement and bill-number checks of create_ra_bill, and any over-billing claim about update_ra_bill.
- Receipts, reversals, fund transfers, GST returns, assets, offers, petty-cash listings, dashboards.
- Redis expiry times are a step that may drop any entry but the version key; serialisation is not modelled, nor is a failing server.
- Ids of predictions: the next id is one above that of the last row, so the id of a deleted last row is given again.
- CSV parsing: rows that do not parse are dropped before the model's import; references that are null in the table are not modelled.
- Explicit nulls in patches, LIKE wildcards in filters, and the collation of string comparisons other than case.
- Float conversions and the rounding of displayed numbers; the trial balance and balance sheet are exact.
- Account lookups that fail: petty cash, TDS and contractor payments take their accounts as configured; check-outs model the failure.
- The recalculation of BOQ actuals (app/utils/boq_calc.py) is one step that sets any actual and its variance; its cost sources are not modelled.
- Geofence, lateness, early departure, images and reports of attendance; the float rounding of hours.
- Attachments, reactions, mentions, pins, replies, drafts and search of the chat; which of the members is first when an admin leaves follows the table order.
- Racing requests outside the cache: the other machines interleave whole handlers.
- BillingRuns.StepKeepsPaidIff: payments made outside pay_contractor are not part of the model.
- BillingHandlers.BillingOffice.ConvertQuotation: the quotation's own state is not modelled, so that it is converted once only is part of the given checks; its percentage is not negative, as its schema demands.
- Ledger.EveryEntryBalancesIff: check-outs look up two fixed accounts; for any other lookups RewageStepIff says when a rewrite unbalances its entry.
- Labour rows that are given to another user after a check-out.
- LedgerHandlers.JournalBook.DecideJournal: who may decide a journal is not checked here; the billing machine models that check.
