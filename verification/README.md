# Household ledger, portfolio and idempotency: a verified model

This project models the bookkeeping backend's four connected cores and proves what they promise.

- **Trade replay.** Every buy, sell, edit and delete replays the item's active trades in order and stores the
  moving-average result. `TradeReplay` is the replay, `TradeTimeline` the order of the rows, `Portfolio` the
  commands over both tables, `PortfolioLaws` what they accept, conserve and depend on, `PortfolioService` the
  class that changes rows in place and rolls back, `Holdings` the month-end aggregate compared with the replay.
- **Ledger, balances, accounts.** Balances are never stored. `Ledger` has the grouped sums and the two sign
  rules, `LedgerPages` the backward walk with the balance carried in the cursor, `Balances` single, batched and
  investment balances, `Household` every request as one atomic step with the invariant of all runs,
  `HouseholdLaws` what one request does to everybody else and what holds after any run, `RequestLaws` when a
  request is accepted and what it stores, `AccountTypes` which
  changes of an account's type keep rows and holdings where they belong, `HouseholdService` the class behind it.
- **Monthly archive and wealth page.** `Snapshots` says what a month stores and how the catch-up job visits
  months, `SnapshotLaws` gives the job a closed form and derives its promises, `SnapshotValues` what the columns
  mean, `SnapshotService` the class that deletes and saves rows, `ArchiveOrder` why the order of the holdings
  query does not matter to it, `Wealth` the slices of the page, `WealthLaws` the lossy round trip between the
  two, `RetypedHoldings` where a changed type breaks it.
- **Idempotency.** `Idempotency` is the record table and one request from start to end, `IdempotencyProtocol`
  any number of requests under one key with crashes, expiry and clock ticks as steps, `Utf8` the body codec.

`Money`, `Sums`, `Calendar`, `Tables` and `Database` hold what the others share. Verify with
`dafny verify dfyconfig.toml`. Wherever Dafny would add an induction hypothesis of its own, a lemma says
`{:induction false}`, so every proof stands on what it writes down.

## How the model stands to the code

- A request is one atomic step that commits or changes nothing (app/core/database.py:46-54). Ids of accounts,
  items and trades are positions in tables whose rows are marked, never removed; a trade's creation stamp is its
  position. A row of the transaction table belongs to the household of its account, which the foreign-key check
  enforces on every write.
- Money is an exact `real`. Columns of two digits round half away from zero, the bare `quantize` of the
  month-end aggregate half to even. A day is its month's index times 31 plus the day of the month.
- Dates are days of the calendar and stored amounts whole cents, as their columns are; both are kept by every
  request.
- The router commits its own transaction after it has produced its response (app/core/database.py:46-54), and
  nothing orders that commit against the capture of the response body. The protocol counts the effect when the
  router ends, as early as it can happen, so the bound covers every real order.
- Times of the idempotency table are in whole seconds.
- Clocks, random ids, market prices, the digest of a body and the router's outcome are parameters.
- A lookup that the code does with one SQL statement is one function or one loop over its groups, in whatever
  order the groups come.
- Documents of the repository describe a committed PENDING record that lingers until cleanup. In the code the
  INSERT commits only together with the completion or the release (app/core/idempotency/middleware.py:97, 109,
  114), so no committed record is ever PENDING; the model follows the code, and `EveryStateIsSafe` proves it.

## What was found

- Exactly-once does not hold, and `EffectsAreBounded` is exact: `BoundIsReached` gives, for any number of lost
  runs and of expired records, an interleaving where each of them costs a repetition. No crash is needed for a loss:
  `CaptureFailureCanDoubleTheEffect`.
- An active valuation survives the deletion of its account (`ValuationCanOutliveItsAccount`), and
  `RunKeepsValuationsExactlyWhen` states the guard that is missing; for income, expenses and transfers the
  promise holds in every run (`RunsKeepRowsStanding`).
- The account type is not guarded. `RunKeepsSuitedExactlyWhen` states the guard that is missing,
  `RetypingStrandsAnExpense` is a run without it, and `RetypedHoldingsCountTwice` one after which the wealth
  page counts holdings twice, by exactly what `SlicesTotalTheMonth` and `RetypingCountsTwice` say.
- The aggregate's average is the moving average exactly as long as an item is rebought at the mean of the shares
  bought before (`MeanIsMovingAverageExactlyWhen`); any other BUY after a SELL separates them
  (`RebuyAgreesExactlyAtTheMean`). Asked once a day it can also be right because a day's trades make up for each
  other: `EveryDayAgreesExactlyWhen` says when.
- The check of the final quantity after a replay can never fire (`RecalcAcceptedExactly`).

## Model

| member | source | states |
|---|---|---|
| Money.HalfUpExactly | app/domain/portfolio/service.py:762-768 | rounding a result is taking the nearest cent, the one farther from zero at a tie, and no other number of cents is that |
| Money.HalfUpIsOdd | app/domain/portfolio/service.py:762-768 | a loss rounds as the gain of the same size |
| Money.HalfEvenExactly | app/domain/portfolio/repository.py:539-540 | the bare quantize of the holdings query is taking the nearest cent, the even one at a tie, and no other |
| TradeReplay.RecomputeRealizedPnl | app/domain/portfolio/service.py:731-771 | the in-place loop returns the replay of the rows it was given and leaves each SELL with the result of the holding just before it; at the first SELL that does not fit it fails |
| TradeReplay.AcceptedExactlyWhenNeverShort | app/domain/portfolio/service.py:751-771 | a replay succeeds if and only if no prefix sells more than it bought |
| TradeReplay.ReplayQuantityIsNet | app/domain/portfolio/service.py:749-771 | the quantity a replay ends with is bought less sold |
| TradeReplay.ReplayStaysNonNegative | app/domain/portfolio/service.py:749-771 | quantity and cost never go below zero, and cost is zero when no share is left |
| TradeReplay.SellKeepsAverage | app/domain/portfolio/service.py:760-770 | a SELL that leaves shares behind leaves their average unchanged |
| TradeReplay.AverageIsBracketedByBuys | app/domain/portfolio/service.py:749-771 | the average lies between the fee-inclusive unit costs of two of the BUYs replayed |
| TradeReplay.MarkIsStable | app/domain/portfolio/service.py:731-771 | rewriting rows already rewritten changes nothing: the results read only what the user entered |
| TradeReplay.ReplayConservesCash | app/domain/portfolio/service.py:749-771 | settlements of a replayed history are its stored results less the cost still held, to half a cent per SELL |
| TradeTimeline.TimelineOrdered | app/domain/portfolio/repository.py:262-274 | the active trades of an item come strictly by date and creation |
| TradeTimeline.OrderedIsUnique | app/domain/portfolio/repository.py:262-274 | that order leaves no freedom: two ordered lists of the same trades are equal |
| Portfolio.RecalcIsCanonical | app/domain/portfolio/service.py:774-796 | after a recalculation quantity, average, status and every SELL say what a replay of the stored active trades says |
| Portfolio.RecalcLeavesOthers | app/domain/portfolio/service.py:774-796 | recalculating an item leaves the active trades of every other item as they were |
| Portfolio.ApplyKeepsSound | app/domain/portfolio/service.py:126-319 | every accepted buy, sell, edit, drop or item change leaves every item equal to the replay of its active trades |
| Portfolio.AddItemKeepsSound | app/domain/portfolio/service.py:98-123 | so does registering an item |
| Portfolio.CloseTradesKeepsSound | app/domain/portfolio/repository.py:371-385 | so does deactivating the trades of an account without active items |
| PortfolioLaws.RecalcAcceptedExactly | app/domain/portfolio/service.py:784-788 | a recalculation fails exactly when some prefix of the timeline is short; the check of the final quantity never decides |
| PortfolioLaws.BuyIsNeverRejected | app/domain/portfolio/service.py:126-166 | a BUY on a live item is accepted, however far back it is dated |
| PortfolioLaws.SellAcceptedExactly | app/domain/portfolio/service.py:198-245 | a SELL is accepted exactly when the item is live and the shares are there from its place in the timeline on |
| PortfolioLaws.LatestSellAcceptedExactly | app/domain/portfolio/service.py:209-233 | a SELL dated last is accepted exactly when it fits the stored quantity |
| PortfolioLaws.DroppedSellIsNeverRejected | app/domain/portfolio/service.py:283-301 | deleting a SELL is accepted |
| PortfolioLaws.RowChangeAcceptedExactly | app/domain/portfolio/service.py:248-301 | an edit or a drop is accepted exactly when the changed timeline is never short |
| PortfolioLaws.StateFollowsFromActiveTrades | app/domain/portfolio/service.py:774-796 | two books where an item has day by day the same active trades in the same order store the same item and results; the order in which the days were filled and the stamps do not matter |
| PortfolioLaws.StoredResultsAreNearest | app/domain/portfolio/service.py:758-768 | in a sound book a SELL stores the cost it released and its result at the running average it met, each as the nearest cent with ties away from zero |
| PortfolioLaws.StoredAverageIsNearest | app/domain/portfolio/service.py:789-793 | an item stores the replayed quantity, and as average the nearest cent of cost per share, ties away from zero |
| PortfolioLaws.OrderIsStored | app/domain/portfolio/service.py:137-156 | an accepted order adds one active trade with the side, quantity, price, fee and date ordered, on the item and its account, and keeps everything entered before |
| PortfolioLaws.ChangeIsStored | app/domain/portfolio/service.py:248-301 | an accepted edit changes the named columns of its trade and no other entry, an accepted drop only its status |
| PortfolioLaws.AccountConservesCash | app/domain/portfolio/repository.py:302-333 | over an account, SELL settlements less BUY settlements are stored results less the replayed cost still held, to half a cent per SELL |
| PortfolioService.Service.Buy | app/domain/portfolio/service.py:126-166 | the tables are those of the BUY step, or unchanged with its error; once accepted, one active trade holds the side, quantity, price, fee and date ordered and all earlier entries are kept |
| PortfolioService.Service.Sell | app/domain/portfolio/service.py:198-245 | the same for a SELL, with its early quantity check |
| PortfolioService.Service.UpdateTransaction | app/domain/portfolio/service.py:248-280 | the same for an edit: the named columns of the trade change and no other entry |
| PortfolioService.Service.DeleteTransaction | app/domain/portfolio/service.py:283-301 | the same for a drop: the status of the trade changes and no other entry |
| PortfolioService.Service.RecalcItem | app/domain/portfolio/service.py:774-796 | reads the timeline into an array, replays it in place and writes item and rows through; a refusal changes nothing |
| Holdings.AsofHoldingsByAccount | app/domain/portfolio/repository.py:469-542 | each item with shares left as of the day has one row: its net quantity, the fee-inclusive amount paid per share bought, and that times the quantity, both as nearest cents with ties to even; no other item has one |
| Holdings.RowsShowTheReplay | app/domain/portfolio/repository.py:539-540 | on a day where the two averages agree a row holds the shares of the replay, and their average cost and their cost as nearest cents |
| Holdings.QuantityFollowsReplay | app/domain/portfolio/repository.py:469-542 | on every day the aggregate quantity is that of the replay up to the day, and never negative |
| Holdings.MeanIsMovingAverageExactlyWhen | app/domain/portfolio/repository.py:469-542 | along a history the aggregate's mean cost is the moving average throughout exactly when every BUY after a SELL costs, fees included, the mean of the shares bought before it; no replay is needed to check that |
| Holdings.RebuyAgreesExactlyAtTheMean | app/domain/portfolio/repository.py:469-542 | where the two agree and shares have been sold, one more BUY keeps them equal exactly when its unit cost is the mean so far, which is the moving average if shares are left |
| Holdings.EveryDayAgreesExactlyWhen | app/domain/portfolio/repository.py:469-542 | in every sound book the aggregate shows an item's moving average on every day exactly when each day with a trade, replayed alone from the totals of the evening before, ends at the totals of that evening |
| Holdings.BuyingFirstKeepsMeanExactlyWhen | app/domain/portfolio/repository.py:469-542 | a day that sells only after it has bought keeps the averages equal exactly when nothing had been sold before it, or its BUYs cost together the mean of the shares bought before, or it leaves nothing |
| Holdings.BuyingFirstDaysAgreeExactlyWhen | app/domain/portfolio/repository.py:469-542 | so for an item whose days all sell last, the totals of each day decide whether the aggregate shows the moving average on every day |
| Holdings.SingleTradesKeepMeanExactlyWhen | app/domain/portfolio/repository.py:469-542 | with one trade a day that is rebuying at the mean only |
| Holdings.RebuyingAtTheMeanAgrees | app/domain/portfolio/repository.py:469-542 | on any day, if the trades up to it rebuy at the mean only, the aggregate shows the moving average |
| Holdings.MeanIsMovingAverageBeforeRebuying | app/domain/portfolio/repository.py:469-542 | so in particular when no BUY follows a SELL |
| Holdings.RebuyingSeparatesTheAverages | app/domain/portfolio/repository.py:469-542 | buy, sell, rebuy off the mean: the instance where the two averages differ |
| Ledger.SumForAccount | app/domain/transaction/repository.py:185-244 | folding the grouped totals of one account in any order gives the row-by-row totals |
| Ledger.SumForAccounts | app/domain/transaction/repository.py:246-303 | one query for many accounts gives each the totals it gets alone |
| Ledger.RowSignsAgreeExactlyWhen | app/domain/transaction/service.py:430-442 | the ledger sign of a row agrees with the aggregate in every ledger exactly when a transfer does not return to its source and no other row names a second account |
| Ledger.SignRulesAgree | app/domain/account/service.py:291-300 | on well-formed tables start balance plus signed rows is the balance of the totals, to any day |
| LedgerPages.BuildLedgerItems | app/domain/transaction/service.py:512-538 | each row shows the balance after it; what remains is the start less all of them |
| LedgerPages.ListAccountLedger | app/domain/transaction/service.py:86-138 | a page shows the next rows below the cursor, issues a cursor exactly when more remain, and counts the whole view |
| LedgerPages.ListingMembers | app/domain/transaction/repository.py:54-120 | a listing holds exactly the matching rows |
| LedgerPages.ListingDescends | app/domain/transaction/repository.py:76-120 | strictly newest first |
| LedgerPages.WalkIsOneRead | app/domain/transaction/service.py:111-138 | for every page size, following the cursors reads the same rows, signs and balances as one unpaged read |
| LedgerPages.WalkShowsEachRowOnce | app/domain/transaction/service.py:86-138 | the walk shows each matching row exactly once, newest first |
| LedgerPages.WalkCloses | app/domain/transaction/service.py:462-491 | the top row carries the balance at the end of the view; undoing the last row gives the start balance or the previous month-end |
| LedgerPages.PagesIssueCarries | app/domain/transaction/service.py:119-131 | every cursor issued carries start balance plus the signed sum of strictly older rows |
| LedgerPages.CarryStaysGood | app/domain/transaction/service.py:445-459 | after any changes above the cursor, going on from it shows what a fresh ledger shows below it |
| Calendar.MonthArithmetic | app/domain/account_snapshot/service.py:160-169 | month shifting and month-end agree with the calendar index, over year ends and leap years |
| Calendar.YearsAreCounted | app/domain/account_snapshot/service.py:160-169 | the month lengths add up to 365 days a year and one more for every fourth year, but not every hundredth, but every four hundredth |
| Calendar.MonthsAreCounted | app/domain/account_snapshot/service.py:160-169 | counted from March the first k months of a year have (153 k + 2) / 5 days |
| Calendar.MonthsEndOnTheirDay | app/domain/account_snapshot/service.py:167-169 | the month-end of every month, by name and leap year |
| Calendar.MonthIsRange | app/domain/transaction/service.py:462-471 | a day is in a month exactly when it lies between its first and last day |
| Balances.SettledForAccount | app/domain/portfolio/repository.py:302-333 | grouped by side, the settlement sums are the row-by-row sums |
| Balances.SettledForAccounts | app/domain/portfolio/repository.py:335-365 | grouped by account and side, each account gets its own sums |
| Balances.CalcBalance | app/domain/account/service.py:272-362 | the balance of one account from its own queries is what the rows mean |
| Balances.LoadBalanceSources | app/domain/account/service.py:365-374 | the batched queries tell of each account what its own would |
| Balances.BatchedIsSingle | app/domain/account/service.py:377-399 | the batched balance is the single-account balance |
| Balances.ListBalances | app/domain/account/service.py:52-69 | every listed account shows the balance its own page shows |
| Balances.InvestmentFigures | app/domain/account/service.py:303-309 | an investment balance is cash plus valuation, profit is valuation less cost, and the rate is its percentage of a positive cost, else zero |
| Balances.InvestmentCashSplits | app/domain/account/service.py:332-336 | investment cash is deposits and flows plus stored results less cost still held, to half a cent per SELL |
| Balances.TransfersCancel | app/domain/transaction/repository.py:288-303 | over accounts no active transfer leaves, balances total start balances plus income less expenses plus valuations |
| Household.StepKeepsGood | app/domain/transaction/service.py:141-209 | every request keeps the rows well formed and standing on active accounts, the items replayed, and the archive sound |
| Household.RunKeepsGood | app/domain/transaction/service.py:141-209 | so does every run of requests, accepted or refused |
| Household.CreateKeepsRows | app/domain/transaction/service.py:141-176 | creating a transaction keeps rows well formed, on active accounts of one household, with unique ids |
| Household.UpdateKeepsRows | app/domain/transaction/service.py:179-196 | so does a partial update with its stale destination and its normalisation |
| Household.DeletedRowStands | app/domain/transaction/repository.py:129-183 | after both cascades an active transfer still has an active end and active income and expenses an active account |
| Household.ApplyStaysOnActiveAccounts | app/domain/portfolio/service.py:774-796 | a trade command revives items on active accounts only |
| HouseholdLaws.DeletingMovesNobodyElse | app/domain/account/service.py:188-212 | deleting an account leaves every other active account its balance, every month-end balance and its whole ledger |
| HouseholdLaws.DeletingSparesOtherMonths | app/domain/account_snapshot/repository.py:101-116 | the archived months of the deleted account go, and no others |
| HouseholdLaws.WhatOutlivesItsAccount | app/domain/transaction/repository.py:129-183 | of its rows exactly valuations and transfers with an active other end stay active |
| HouseholdLaws.ValuationCanOutliveItsAccount | app/domain/transaction/repository.py:129-148 | a run that leaves an active valuation on a deleted account |
| HouseholdLaws.DeleteKeepsValuationsExactlyWhen | app/domain/transaction/repository.py:129-148 | deleting an account keeps every active valuation on an active account exactly when none is on the deleted one |
| HouseholdLaws.RunKeepsValuationsExactlyWhen | app/domain/account/service.py:188-212 | all along a run every active valuation is on an active account exactly when no account is deleted with one on it |
| HouseholdLaws.CreatingMovesBalances | app/domain/transaction/service.py:141-176 | a new row moves each balance by what its ledger entry shows and no other |
| HouseholdLaws.TransferMovesItsAmount | app/domain/transaction/service.py:141-176 | a transfer takes its amount from one account and gives it to the other |
| HouseholdLaws.UpdatingMovesBalances | app/domain/transaction/service.py:179-196 | an edit moves each balance from the old entry to the new one |
| HouseholdLaws.DeletingMovesBalances | app/domain/transaction/service.py:199-209 | deleting a row undoes it |
| HouseholdLaws.NewAccountShowsItsStart | app/domain/account/service.py:143-156 | the figures answered for a new account are the ones its page computes |
| HouseholdLaws.CarrySurvivesRequests | app/domain/transaction/service.py:86-138 | between two pages any requests may change rows above the cursor: what lies below reads as in a fresh ledger |
| HouseholdLaws.RunsConserveWealth | app/domain/account/service.py:291-300 | after any run, accounts no active transfer leaves hold together their start balances and what they earned |
| HouseholdLaws.RunsKeepRowsStanding | app/domain/account/service.py:188-212 | after any run, an active transfer has an active end and active income and expenses an active account |
| HouseholdLaws.RunsKeepItemsReplayed | app/domain/portfolio/service.py:774-796 | after any run of all kinds of requests an item and its results are the replay of its active trades |
| HouseholdLaws.HistoriesAgreeOnActiveTrades | app/domain/portfolio/service.py:731-796 | two runs that end with day by day the same active trades of an item end with the same item and results |
| HouseholdLaws.RunsCloseTheLedger | app/domain/transaction/service.py:462-538 | after any run, for every account, view and page size, the walk starts at the end balance of the view and undoing it gives the balance before it |
| HouseholdLaws.RunsDifferByTheMonth | app/domain/account_snapshot/service.py:239-256 | after any run, month-ends of a cash account differ by the month and top its ledger |
| AccountTypes.StepKeepsSuitedExactlyWhen | app/domain/account/service.py:169-170 | a request keeps active rows on accounts of a fitting type and holdings on investment accounts exactly when, if it changes a type, what is active on the account suits the new one |
| AccountTypes.RunKeepsSuitedExactlyWhen | app/domain/transaction/service.py:370-380 | all along a run this holds exactly when every type change along it fits |
| AccountTypes.RetypingStrandsAnExpense | app/domain/account/service.py:169-170 | a run that puts an expense on a manual asset by changing a type |
| AccountTypes.RunsAllocateEverything | app/domain/wealth/service.py:144-167 | after any run whose type changes fit, a household's cash parts and holdings are together exactly its listed balances |
| RetypedHoldings.RetypingCountsTwice | app/domain/wealth/service.py:181-182 | retyping an investment account after a snapshot makes the page count its stored valuations twice, and nothing else |
| RetypedHoldings.RetypedHoldingsCountTwice | app/domain/wealth/service.py:181-182 | a run after which the page counts 100 twice |
| HouseholdService.Books.Create | app/domain/transaction/service.py:141-176 | the tables become those of the create step; its errors change nothing |
| HouseholdService.Books.Update | app/domain/transaction/service.py:179-196 | the same for update: merge, normalise, check, and roll back if inconsistent |
| HouseholdService.Books.Delete | app/domain/transaction/service.py:199-209 | the same for delete |
| HouseholdService.Books.OpenAccount | app/domain/account/service.py:118-156 | the same for a new account, with the summary its page will show |
| HouseholdService.Books.ChangeAccount | app/domain/account/service.py:159-185 | the same for account updates, with the summary its page then shows |
| HouseholdService.Books.CloseAccount | app/domain/account/service.py:188-212 | the same for account deletion: guard, cascades, then the account |
| HouseholdService.Books.RegisterItem | app/domain/portfolio/service.py:98-123 | the same for registering an item on an investment account |
| RequestLaws.AcceptedExactlyWhen | app/domain/transaction/service.py:370-380 | in every state requests lead to, a request is accepted exactly when its row, its accounts and their types allow it, spelled out request by request |
| RequestLaws.ItemChangeAcceptedExactly | app/domain/portfolio/service.py:304-319 | a live item is dropped or archived exactly when no share of it is left |
| RequestLaws.RequestsStoreWhatTheySay | app/domain/transaction/service.py:141-209 | an accepted request stores each column it names, keeps every other, and touches no other row, account, item or trade |
| RequestLaws.RequestsReachTheArchive | app/domain/account_snapshot/service.py:34-97 | what every account and month hold in the archive after a request: the due months recomputed by the job, one by the manual snapshot, none left of a deleted account, and no change otherwise |
| RequestLaws.OrderMovesCash | app/domain/portfolio/repository.py:302-333 | from its date on an accepted BUY takes gross amount plus fee from its account, a SELL brings gross less fee, and no other account moves |
| RequestLaws.ChangeMovesCash | app/domain/portfolio/repository.py:302-333 | an edit or drop undoes what its trade moved and does what it now says |
| Snapshots.ValueHoldingsAtMonth | app/domain/market_price/service.py:240-276 | wherever the month has a price under the item's current quote a holding shows that price and quantity times price, elsewhere its average cost and cost; one lookup table serves any number of items |
| SnapshotValues.HoldingsInAnyOrder | app/domain/portfolio/repository.py:469-542 | two answers of the holdings query are the same rows in another order and give the same totals |
| SnapshotValues.StoredHoldingsFollowReplay | app/domain/portfolio/snapshot_service.py:58-88 | a stored holding exists exactly when the replay at month-end holds shares, with their number and value |
| SnapshotValues.StoredRowsAreNearest | app/domain/portfolio/snapshot_service.py:71-87 | a stored holding has the net quantity, mean cost and cost of the aggregate and, where the month has a price, price and quantity times price as nearest cents, else its average and cost |
| SnapshotValues.PricedMonthIsMarketValue | app/domain/market_price/service.py:263-270 | where every holding has a price, the month is worth its cash plus quantity times price of each holding |
| SnapshotValues.CashSnapshotIsExact | app/domain/account_snapshot/service.py:239-256 | the stored row of a cash account loses nothing to rounding |
| SnapshotValues.MonthEndsDifferByTheMonth | app/domain/account_snapshot/service.py:239-256 | consecutive month-ends of a cash account differ by the month's stored flows, transfers and valuations |
| SnapshotValues.SnapshotTopsTheLedger | app/domain/transaction/service.py:462-491 | a cash account's stored balance is the top balance of that month's ledger |
| SnapshotLaws.RebuiltMonth | app/domain/account_snapshot/service.py:213-264 | rebuilding a month puts the recomputed rows there for the household and touches nothing else |
| SnapshotLaws.FloorIsFirstMonth | app/domain/account_snapshot/repository.py:52-65 | the catch-up floor is the first stored month, or the target where there is none |
| SnapshotLaws.JobClosedForm | app/domain/account_snapshot/service.py:34-75 | after the job an account and month hold the recomputed rows if the month was due and its household visited, and what they held before otherwise; the archive stays sound |
| SnapshotLaws.WindowIsComplete | app/domain/account_snapshot/service.py:44-69 | a household with an open account has every month from the floor, or eleven before the target, to the target |
| SnapshotLaws.DueMonthsHoldOpenAccounts | app/domain/account_snapshot/service.py:213-264 | in a month the job writes, an account of the household has rows exactly if it is active and not archived |
| SnapshotLaws.NothingIsCreatedEarlier | app/domain/account_snapshot/service.py:60-63 | no month is created outside that window |
| SnapshotLaws.OldMonthsAreKept | app/domain/account_snapshot/service.py:64-66 | stored months before the last two keep every row |
| SnapshotLaws.SecondRunChangesNothing | app/domain/account_snapshot/service.py:34-75 | a second run over the same data changes no stored value |
| SnapshotLaws.ManualRewritesOneMonth | app/domain/account_snapshot/service.py:78-97 | the manual snapshot recomputes the target month alone, however often it is taken |
| SnapshotService.CalcBalanceAt | app/domain/account/service.py:320-362 | the as-of balance through the queries, holdings in any order, is the month balance |
| SnapshotService.SumByAccountForMonth | app/domain/transaction/repository.py:305-341 | grouped by kind, the month's sums are the row-by-row sums |
| SnapshotService.HouseholdHoldsOnce | app/domain/portfolio/snapshot_service.py:58-72 | whatever order the queries answer in, no item is held on two accounts, so one valuation serves the household |
| SnapshotService.ArchiveService.SnapshotHouseholdPortfolio | app/domain/portfolio/snapshot_service.py:29-95 | from the queries in any order and valued once for the household, the histories saved are those of each account valued alone, up to order |
| SnapshotService.ArchiveService.BuildAndSaveSnapshot | app/domain/account_snapshot/service.py:213-264 | replaces or adds the rows of one household and month, histories up to order |
| SnapshotService.ArchiveService.CreateMonthlySnapshotsForAll | app/domain/account_snapshot/service.py:34-75 | the loops over households and months leave what the job step leaves, histories up to order |
| SnapshotService.ArchiveService.CreateTargetMonthSnapshot | app/domain/account_snapshot/service.py:78-97 | the manual snapshot leaves what its step leaves, histories up to order |
| ArchiveOrder.ReadsTheSame | app/domain/account_snapshot/repository.py:16-65 | archives that differ in the order of their histories read the same for every account and month, and total the same |
| Wealth.BuildAllocation | app/domain/wealth/service.py:144-167 | the shares hold per class the cash parts, manual assets and holdings; largest first, no zero, each class once, ratios totalling 100 when the total is positive |
| Wealth.SlicesTotalBalances | app/domain/wealth/service.py:144-167 | of one household, the total is that of the listed balances plus exactly what it holds outside the listed investment accounts |
| Wealth.ListShowsSlices | app/domain/wealth/service.py:128-141 | the list shows the amounts of the dictionary, sorted, without zeros, with their part of the total |
| Wealth.SlicesFollowTypes | app/domain/wealth/service.py:43-48 | each slice holds the accounts of its types, listed type by type, and the slice of holdings the items and nothing else |
| Wealth.MonthSlicesFollowTypes | app/domain/wealth/service.py:43-48 | the same for every month of the trend |
| Wealth.BuildAllocationTrend | app/domain/wealth/service.py:90-125 | one point per month with rows, oldest first, each showing stored valuations and recovered balances per class |
| Wealth.AddSnapshotToMonth | app/domain/wealth/service.py:170-186 | a snapshot goes to the class of its account type, an investment account with its cash only |
| WealthLaws.BalanceLessHoldingsIsCash | app/domain/wealth/service.py:181-182 | stored balance less stored valuations is the month-end cash to half a cent per stored row, and exactly before rounding |
| WealthLaws.PageRecoversCash | app/domain/wealth/service.py:110-120 | right after the job the page recovers the cash of every month written to that bound |
| WealthLaws.SlicesTotalTheMonth | app/domain/wealth/service.py:104-120 | a month's slices total its stored balances plus exactly the valuations filed on accounts that are no longer investment accounts |
| Utf8.BodySurvivesExactlyWhenText | app/core/idempotency/middleware.py:107-107 | a body comes back from the cache byte for byte exactly when it is UTF-8 text |
| Utf8.ReplacementsAreMaximal | app/core/idempotency/middleware.py:107-107 | decoding takes the scalar value encoded at a place; where none is, U+FFFD replaces the longest initial part of an encoding, or one byte |
| Idempotency.ReplayIsExactlyWhen | app/core/idempotency/response_codec.py:24-39 | a replayed response keeps headers, text and every status but 0, which becomes 200; it is the original exactly when it has a status and a text body |
| Idempotency.RetryIsReplayed | app/core/idempotency/service.py:42-67 | a retry gets the first response and leaves the record alone |
| Idempotency.Table.TryAcquire | app/core/idempotency/repository.py:17-45 | inserts a PENDING row exactly when the key is free |
| Idempotency.Table.MarkCompleted | app/core/idempotency/repository.py:54-76 | completes the row of the key whatever its status |
| Idempotency.Table.Release | app/core/idempotency/repository.py:78-85 | deletes the row of the key only if PENDING |
| Idempotency.Table.CleanupExpired | app/core/idempotency/repository.py:87-107 | a COMPLETED row survives exactly if its completion is at most 86400 seconds old, a PENDING one exactly if its creation is at most 60 seconds old; both kinds of deletions are counted |
| Idempotency.Table.ProcessAcquire | app/core/idempotency/service.py:21-67 | acquires a free key, else answers by record and leaves the table alone |
| Idempotency.Table.Dispatch | app/core/idempotency/middleware.py:78-115 | leaves and answers, for a request that meets no other, what the conflict branches, status and outcome say; other keys untouched |
| IdempotencyProtocol.StepKeepsInv | app/core/idempotency/middleware.py:78-115 | every step of any request, crash, tick or cleanup keeps the protocol invariant |
| IdempotencyProtocol.EffectsAreBounded | app/core/idempotency/middleware.py:78-115 | in every interleaving, committed effects are at most one plus the runs lost after their business commit plus the records expired |
| IdempotencyProtocol.EveryStateIsSafe | app/core/idempotency/middleware.py:78-115 | at most one request holds the key; a committed record is COMPLETED and holds what one run under its attempt returned; every answer is justified |
| IdempotencyProtocol.OnlyTheOwnerRecords | app/core/idempotency/repository.py:54-85 | the committed record changes only when its owner's completion commits or when it expires |
| IdempotencyProtocol.FailureFreesTheKey | app/core/idempotency/middleware.py:112-115 | after a failed or crashed run the next request under the key runs |
| IdempotencyProtocol.RepeatIsReplayed | app/core/idempotency/service.py:60-63 | while its record is there a repeated request runs nothing and gets the first response |
| IdempotencyProtocol.RecordedExactlyBelow500 | app/core/idempotency/middleware.py:96-115 | in every interleaving a request answered with what its own run returned was recorded exactly when the status is below 500 |
| IdempotencyProtocol.CleanupKeepsExactlyForADay | app/core/idempotency/repository.py:87-107 | a cleanup leaves the committed record exactly up to 86400 seconds after its completion |
| IdempotencyProtocol.RecordLastsADay | app/core/idempotency/constants.py:1-3 | in every interleaving a committed record stays as it is for 86400 seconds |
| IdempotencyProtocol.RepeatWithinADay | app/core/idempotency/service.py:42-67 | in every interleaving, within 86400 seconds of a recorded completion a matching request does not get the key, runs nothing and is answered with the recorded response |
| IdempotencyProtocol.BoundIsReached | app/core/idempotency/middleware.py:78-115 | for every number of lost runs and of expired records some interleaving commits exactly one effect more than both together |
| IdempotencyProtocol.CrashCanDoubleTheEffect | app/core/idempotency/middleware.py:89-110 | exactly-once fails: a run that dies after the business commit lets its retry commit again |
| IdempotencyProtocol.CaptureFailureCanDoubleTheEffect | app/core/idempotency/middleware.py:92-115 | nor without a crash: a response that cannot be captured releases the key after the business commit |
| IdempotencyProtocol.CrashRollsBack | app/core/idempotency/middleware.py:78-115 | a request may die at any moment before its answer; only its own transaction is lost and its key is free |
| IdempotencyProtocol.EffectsAreWritten | app/core/idempotency/middleware.py:89-93 | in every interleaving the effects are exactly those of the routers that committed one |
| IdempotencyProtocol.DispatchIsARun | app/core/idempotency/middleware.py:78-115 | the sequential dispatch of one request is a run of the protocol steps |

## Left out

- TradeReplay.RecomputeRealizedPnl: divides exactly, where the code divides to 28 significant digits.
- Holdings.AsofHoldingsByAccount: names and codes of holdings are not carried.
- LedgerPages.ListAccountLedger: the names joined to a row are not modelled; its account, items, cursor and total are.
- HouseholdService.Books.Create: category, fixed-expense, payer and memo fields and their checks are not modelled.
- HouseholdService.Books.Update: the same fields are not modelled.
- SnapshotService.ArchiveService.CreateMonthlySnapshotsForAll: the price fetches before the loop and the counter it returns are not modelled; prices are an arbitrary partial map.
- SnapshotService.ArchiveService.CreateTargetMonthSnapshot: the price fetches before the rebuild are not modelled; prices are an arbitrary partial map.
- SnapshotService.ArchiveService.BuildAndSaveSnapshot: accounts are visited in table order instead of display order, which decides only the order of saved rows.
- IdempotencyProtocol.EffectsAreBounded: rows of other users and keys are independent of the key modelled and do not appear; `Idempotency.Table.Dispatch` states that they are untouched.
- The sending of a response to the client after the middleware returns it, and streaming bodies, are not modelled.
- Routing, request parsing, tokens and household membership; requests reach the steps already authenticated.
- The household check of trade commands: an item's household is that of its account.
- Cursor strings, and malformed or forged cursors: a cursor is a key and a carry.
- JSON encoding of response headers: headers are a list of pairs.
- Concurrent trade commands on one item, and the deletion of a whole household.
- The account, category, fixed-expense and trade lists with cursors of their own.
- Reports, calendars, realised-result lists, price refresh, migrations and demo data.
- SQL isolation beyond what the protocol steps state: one uncommitted holder per key, lookups see committed rows.
