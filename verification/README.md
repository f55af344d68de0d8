# Verified model of the Mr Wallet back end

A Dafny model of the stored figures and protocols of a personal-finance back end, with proofs that they agree with
their definitions. `dafny verify dfyconfig.toml` checks the whole project.

The database is modelled as maps and sequences and time as an integer passed in. Each database transaction is one atomic
step; the queries of a feed page, which share no transaction, are separate steps. Floating-point rates are exact reals.
Hashes, label normalization, the reading of columns, rate lookups and the handlers behind a sync push are function
parameters; ids and token hashes are fresh values. Services that update rows are classes whose methods are proved to do
exactly what a function on a whole state does; the laws are proved about that function, over every operation and over
every run.

| part | files |
|---|---|
| Sync feed and push | `ChangesFeed`, `FeedPaging`, `FeedRuns`, `SyncPush` |
| Ledger, transfers, reconciliation | `Ledger`, `LedgerProofs`, `LedgerService` |
| Refresh-token rotation | `RefreshRotation`, `AuthService` |
| Calendar, budget periods, due dates | `Calendar`, `PeriodBounds`, `ScheduleDates` |
| Debt schedules | `Rounding`, `Amortization`, `Annuity`, `AnnuityDrift` |
| Debt payments | `Debts`, `DebtProofs`, `DebtBalance`, `DebtService` |
| Budgets, categories, the repair script | `Rollover`, `Categories`, `CategoriesService`, `Budgets`, `BudgetProofs`, `BudgetRuns`, `BudgetService`, `BudgetRepair` |
| Import | `Similarity`, `ImportDedupe`, `ImportBatches`, `ImportService` |
| Exact text and money | `DecimalText`, `Money`, `Allocation` |
| Shared | `Wrappers`, `Integers`, `MapSums` |

## Where the code departs from its documentation

The model follows the code. Each of these is stated as a lemma with the exact condition, or with the input that shows
it.

- Feed: two rows of different tables with the same timestamp and id are both delivered only when they fall on one page;
  a write that becomes visible with a timestamp below a cursor already issued is never delivered
  (`FeedPaging.DrainIsComplete`, `FeedRuns.DeliveredIffAfterCursor`). The eight queries of a page run outside any
  transaction: a row written after its table was queried, but at or below the last key of the page, is never delivered
  (`FeedRuns.PageAcrossTables`, `FeedRuns.MissedRowDelivered`; `FeedRuns.WriteBetweenQueriesIsLost` is a run).
- Push: an operation whose id is already the key of another user or endpoint takes effect on every push
  (`SyncPush.PushedTwice`; `SyncPush.IdOfTwoUsers` is a run).
- Ledger: by `docs/04-modules.md:116-118` an edit deletes the fee line, changes it, or carries it along with its parent.
  The deletion is soft and the unique reference of the deleted line stays taken, so a fee that was cleared can never be
  set again (`LedgerProofs.ClearedFeeNeverReturns`); and an update that moves the transaction without naming the fee
  leaves the fee line on the account and the date it had (`LedgerProofs.FeeLineLeftBehind`;
  `LedgerProofs.FeeStaysOnOldAccount` is a run).
- Refresh: a call whose session is logged out between lookup and close revokes every session of the user, although no
  token was reused (`RefreshRotation.LosingToARevocationRevokesAll`, `RefreshRotation.RevokesFamilyIff`;
  `RefreshRotation.LogoutDuringRefresh` is a run).
- Dates: `Date.UTC` reads the years 0 to 99 as 1900 to 1999, so periods and due dates jump there
  (`PeriodBounds.ReferenceLiesInItsPeriod`, `ScheduleDates.RisesIff`; `PeriodBounds.JuneOfYearFifty` and
  `ScheduleDates.DecemberOfYear99` are dates).
- Debts: an installment can ask for more than is outstanding, a partly paid one kept through a regeneration for example;
  paying it is accepted and the balance is clamped to 0. `DebtBalance.OutstandingIsWhatIsLeft` says exactly when the
  outstanding balance stays right, `DebtBalance.ClampLosesMoney` gives a run on a hand-typed schedule where it does not.
  Recording a payment under the id of a deleted one fails only after the installment was updated, and a payoff whose
  linked account refuses the transaction fails with the remaining lines not skipped (`DebtProofs.StepKeeps`;
  `DebtBalance.ReusedIdRun` and `DebtBalance.RefusedPayoff` are runs).
- Budgets: by RG-B3 of `docs/04-modules.md` the live expenses of the category feed the spending of a period, and by
  RG-B5 every change of spending is cascaded. What happens while a budget is paused is not made up for when it is
  activated again (`BudgetRuns.SpentAfterPause`, `BudgetRuns.PausedExpenseIsLost`).
- Categories: by RG-C4 of `docs/04-modules.md` the transactions of a deleted category move to another one; nothing
  stops the category itself from being that other one (`Categories.RemovalLeavesNoOrphan`,
  `Categories.SelfReassignmentOrphans`).
- Import: `docs/06-import-export.md` section 9 promises that a batch with a failing row is rolled back as a whole. A
  commit that stops at a refused row keeps the rows before it and the staged batch, and repeating it imports them
  again, unless the refused row is the first (`ImportBatches.FailedCommitRollsBackIff`,
  `ImportBatches.RetriedCommitDuplicates`; `ImportBatches.RowImportedTwice` is a run with a row dated before the account
  was opened). Section 5 promises that no digit is lost: an amount with a second decimal separator loses the digits
  behind it, and is wrong unless they are zeros (`DecimalText.ParsedExactly`, `DecimalText.SecondSeparatorExample`).
- Money: `allocate` promises shares that sum to the amount; with a negative ratio they need not
  (`Allocation.SharesAddUp`, `Allocation.NegativeRatioInvents`).

## Model

| member | source | states |
|---|---|---|
| `ChangesFeed.SortSorts` | `apps/api/src/modules/sync/domain/changes-feed.ts:97` | sorting the candidates orders them and neither loses nor duplicates a row |
| `ChangesFeed.TakeOfMerge` | `apps/api/src/modules/sync/domain/changes-feed.ts:85-99` | the first n rows of a merge need only the first n rows of each side |
| `ChangesFeed.OneMoreTable` | `apps/api/src/modules/sync/domain/changes-feed.ts:83-99` | reading only the first `limit` rows of one more table changes the page exactly as reading the whole table would |
| `ChangesFeed.CollectCandidates` | `apps/api/src/modules/sync/domain/changes-feed.ts:70-95` | the per-table loop over the tables as their queries saw them: sorted and cut, the candidates are the first `limit` rows of all the tables together; a table was full exactly when the flag says so |
| `ChangesFeed.LoadChangesPage` | `apps/api/src/modules/sync/domain/changes-feed.ts:64-110` | a page is exactly the first `limit` rows after the cursor of the sorted union of the eight tables, each as its query saw it, and `hasMore` is false only when the page holds all that was left in them |
| `ChangesFeed.Changes` | `apps/api/src/modules/sync/sync.service.ts:129-137` | the endpoint answers that page and always hands out a cursor |
| `ChangesFeed.FeedIsSuffix` | `apps/api/src/modules/sync/domain/changes-feed.ts:76-84` | reading after a cursor is reading the whole feed from the first row after it |
| `FeedPaging.MoreMeansFullPage` | `apps/api/src/modules/sync/domain/changes-feed.ts:99-103` | `hasMore` never accompanies a short page |
| `FeedPaging.PageOf` | `apps/api/src/modules/sync/domain/changes-feed.ts:97-109` | each page is the next `limit` rows, and its cursor is the key of its last row |
| `FeedPaging.DrainIsComplete` | `apps/api/src/modules/sync/domain/changes-feed.ts:64-110` | following the cursors from the start delivers every row of the user exactly once and in order, for every page size, if and only if no two of the rows share timestamp and id |
| `FeedPaging.AllIsSortedUnion` | `apps/api/src/modules/sync/domain/changes-feed.ts:4-13` | the whole feed is the multiset of the rows of the user in the eight tables, in feed order |
| `FeedPaging.TieAcrossTablesIsLost` | `apps/api/src/modules/sync/domain/changes-feed.ts:76-81` | two tables holding the same timestamp and id: a page of one loses the second row |
| `FeedRuns.StepKeeps` | `apps/api/src/modules/sync/domain/changes-feed.ts:64-110` | every write, every table query and every finished page keeps each device right up to its cursor |
| `FeedRuns.RunKeeps` | `apps/api/src/modules/sync/domain/changes-feed.ts:64-110` | so does every interleaving of writes and soft deletes with the eight separate queries of the page reads, when writes stamp above the cursors already issued and no row the queries of a page missed lies at or below its last key |
| `FeedRuns.RunConverges` | `apps/api/src/modules/sync/sync.service.ts:129-137` | after any such run a device that reads on without further writes ends with exactly the live rows of the server, and has them at once when its read answers `hasMore = false` and its queries missed no row |
| `FeedRuns.EveryDeviceConverges` | `apps/api/src/modules/sync/sync.service.ts:129-137` | the same from any database with devices that have read nothing yet |
| `FeedRuns.PageAcrossTables` | `apps/api/src/modules/sync/domain/changes-feed.ts:70-84` | a page whose queries saw different moments leaves the device right if and only if every row they missed at or below the last key of the page is held by the device anyway |
| `FeedRuns.MissedRowDelivered` | `apps/api/src/modules/sync/domain/changes-feed.ts:70-84` | a row the queries of a page missed is ever delivered if and only if it lies after the last key of that page |
| `FeedRuns.WriteBetweenQueriesIsLost` | `apps/api/src/modules/sync/domain/changes-feed.ts:70-84` | a run: a transaction saved after the transactions were queried, an account saved later and queried; the page ends at the account and the transaction is never delivered |
| `FeedRuns.SyncConverges` | `apps/api/src/modules/sync/sync.service.ts:129-137` | without writes, reading on ends and leaves exactly the live rows, whatever the page size |
| `FeedRuns.DeliveredIffAfterCursor` | `apps/api/src/modules/sync/domain/changes-feed.ts:76-84` | a later write reaches a device if and only if its timestamp and id lie after the cursor of the device |
| `SyncPush.SyncService.Push` | `apps/api/src/modules/sync/sync.service.ts:65-127` | the batch loop, answers and `stoppedAt` included, for clients old and new |
| `SyncPush.SyncService.PushOperation` | `apps/api/src/modules/sync/sync.service.ts:81-121` | one operation: its key is looked up first, its handler runs otherwise, the key is written after success |
| `SyncPush.ResponseShape` | `apps/api/src/modules/sync/sync.service.ts:78-126` | the answers are those of the first operations, in order: applied or duplicate, then at most one conflict or rejection |
| `SyncPush.PushConcat` | `apps/api/src/modules/sync/sync.service.ts:81-123` | pushing two batches one after the other is pushing their concatenation |
| `SyncPush.NothingAfterStop` | `apps/api/src/modules/sync/sync.service.ts:104-121` | from the stopping operation on nothing takes effect |
| `SyncPush.KeysHoldResponses` | `apps/api/src/modules/sync/sync.service.ts:95-103` | after a completed batch every operation has its key, holding the answer it got |
| `SyncPush.KnownBatchIsReplay` | `apps/api/src/modules/sync/sync.service.ts:82-93` | operations whose keys exist answer as duplicates and change nothing |
| `SyncPush.RepushIsHarmless` | `apps/api/src/modules/sync/sync.service.ts:82-93` | pushing a completed batch again changes nothing and answers with the original responses |
| `SyncPush.RetryResumes` | `apps/api/src/modules/sync/sync.service.ts:78-126` | an interrupted batch retried in full ends in the state, the outcome and the number of answers of the uninterrupted one |
| `SyncPush.AtMostOnce` | `apps/api/src/modules/sync/sync.service.ts:78-126` | over any sequence of batches, retried, overlapping or interrupted, no operation takes effect twice |
| `SyncPush.PushedTwice` | `apps/api/src/modules/sync/sync.service.ts:82-93` | how often an operation takes effect when pushed twice, exactly: twice if and only if its key belongs to another user or endpoint |
| `SyncPush.IdOfTwoUsers` | `apps/api/src/modules/sync/sync.service.ts:82-103` | a run: two users push operations with one id; the operation of the second takes effect on its push and again on its retry |
| `LedgerProofs.StepKeeps` | `apps/api/src/modules/transactions/transactions.service.ts:202-568` | every ledger operation keeps balances equal to their definition, live fee lines under live parents, at most one fee line per parent, and transfer groups of two equal opposite legs |
| `LedgerProofs.EveryRunKeepsInv` | `apps/api/src/modules/transactions/transactions.service.ts:202-568` | so does every sequence of operations |
| `LedgerProofs.AggregatesAreEffects` | `apps/api/src/modules/reconciliation/reconciliation.service.ts:67-82` | the two aggregates of the drift check are the signed sum of the live rows of the account |
| `LedgerProofs.DriftCheckAlwaysMatches` | `apps/api/src/modules/reconciliation/reconciliation.service.ts:62-106` | in every state reached from the empty book the stored balance equals the one the drift check computes |
| `LedgerProofs.ReconcileSetsDeclaredBalance` | `apps/api/src/modules/reconciliation/reconciliation.service.ts:27-49` | after a reconciliation that is not refused the balance is the declared one, no other account moved, at most one row was added |
| `LedgerProofs.SumVoided` | `apps/api/src/modules/transactions/transactions.service.ts:420-462` | soft-deleting rows takes exactly their contribution out of the definition of the balance |
| `LedgerProofs.CascadeOfTransfer` | `apps/api/src/modules/transactions/transactions.service.ts:464-484` | removing either leg of a transfer takes exactly the rows the transfer added |
| `LedgerProofs.RemoveTransferRestores` | `apps/api/src/modules/transactions/transactions.service.ts:464-484` | and leaves every account with the balance it had before the transfer |
| `LedgerProofs.RunPersists` | `apps/api/src/modules/transactions/transactions.service.ts:202-568` | no run ever loses a row or brings a deleted one back |
| `LedgerProofs.FeeUpdateAccepted` | `apps/api/src/modules/transactions/transactions.service.ts:388-395` | an otherwise valid update that asks for a fee is accepted if and only if no fee line of the transaction was ever deleted |
| `LedgerProofs.ClearedFeeNeverReturns` | `apps/api/src/modules/transactions/transactions.service.ts:365-396` | once an update has cleared a fee, with null or with 0, no later update in any run can set one again |
| `LedgerProofs.FeeLineLeftBehind` | `apps/api/src/modules/transactions/transactions.service.ts:346-412` | a fee line on the account of its parent is on another one after an update if and only if the update moves the parent and does not name the fee; the same for its date |
| `LedgerProofs.FeeStaysOnOldAccount` | `apps/api/src/modules/transactions/transactions.service.ts:364-412` | a run from the empty book: an expense with a fee is moved to a second account, its fee is still paid from the first |
| `LedgerService.LedgerService.Create` | `apps/api/src/modules/transactions/transactions.service.ts:202-308` | creation step by step, with its fee line and its rollback |
| `LedgerService.LedgerService.CreateFeeLine` | `apps/api/src/modules/transactions/transactions.service.ts:73-106` | the fee line and its effect on the balance |
| `LedgerService.LedgerService.Update` | `apps/api/src/modules/transactions/transactions.service.ts:310-418` | update step by step: reversal of the old effect, new effect, fee change, rollback |
| `LedgerService.LedgerService.ApplyFeeChange` | `apps/api/src/modules/transactions/transactions.service.ts:365-396` | the three ways an update treats the fee line |
| `LedgerService.LedgerService.Remove` | `apps/api/src/modules/transactions/transactions.service.ts:420-462` | removal with its cascade over fee line and transfer |
| `LedgerService.LedgerService.Transfer` | `apps/api/src/modules/transactions/transactions.service.ts:487-568` | the two legs, the fee line and the balances of a transfer |
| `LedgerService.LedgerService.AdjustBalance` | `apps/api/src/modules/accounts/accounts.service.ts:101-103` | one increment of one stored balance |
| `LedgerService.LedgerService.CreateAccount` | `apps/api/src/modules/accounts/accounts.service.ts:47-77` | an account starts at its opening balance; an unknown currency is refused, a known id is a replay |
| `LedgerService.LedgerService.RemoveAccount` | `apps/api/src/modules/accounts/accounts.service.ts:91-98` | an account with live rows is not removed |
| `LedgerService.LedgerService.Reconcile` | `apps/api/src/modules/reconciliation/reconciliation.service.ts:27-49` | reconciliation step by step |
| `LedgerService.LedgerService.RunNightlyDriftChecks` | `apps/api/src/modules/reconciliation/reconciliation.service.ts:62-106` | one check per account, holding stored and computed balance; all match in a sound book |
| `LedgerService.LedgerService.Aggregate` | `apps/api/src/modules/reconciliation/reconciliation.service.ts:67-80` | the sum of the live rows of one account and type |
| `LedgerService.PutOldIsAdjustTwice` | `apps/api/src/modules/transactions/transactions.service.ts:348-354` | reversing the old effect and applying the new one moves every account by the difference, same account or not |
| `RefreshRotation.StepKeeps` | `apps/api/src/modules/auth/auth.service.ts:422-548` | every step of every interleaved call keeps the session links sound |
| `RefreshRotation.RunKeeps` | `apps/api/src/modules/auth/auth.service.ts:422-548` | so does every run, and no session is ever reopened or relinked |
| `RefreshRotation.OneOpenEnd` | `apps/api/src/modules/auth/auth.service.ts:455-477` | every session leads to exactly one session that is not superseded |
| `RefreshRotation.EveryRunHasOneOpenEnd` | `apps/api/src/modules/auth/auth.service.ts:422-548` | the same in every state reached from a system without sessions |
| `RefreshRotation.ChainsAreDisjoint` | `apps/api/src/modules/auth/auth.service.ts:455-477` | two sessions have the same end if and only if one of them leads to the other |
| `RefreshRotation.OneRotationPerToken` | `apps/api/src/modules/auth/auth.service.ts:455-479` | however many calls race on a token, at most one creates a session |
| `RefreshRotation.SuccessesAgree` | `apps/api/src/modules/auth/auth.service.ts:489-518` | all successful calls on one token name the same session |
| `RefreshRotation.LoserInsideGrace` | `apps/api/src/modules/auth/auth.service.ts:489-518` | a call that lost the race gets the successor and revokes nothing if and only if it resolves inside the grace window with a live successor |
| `RefreshRotation.LosingToARevocationRevokesAll` | `apps/api/src/modules/auth/auth.service.ts:457-518` | a call whose session is revoked between lookup and close ends by revoking all sessions of the user |
| `RefreshRotation.RevokesFamilyIff` | `apps/api/src/modules/auth/auth.service.ts:457-518` | from its close on, whatever others do before it resolves: a call whose session is open rotates it; any other goes on to revoke the family if and only if it does not resolve inside the grace window of that session with a live successor |
| `RefreshRotation.LogoutDuringRefresh` | `apps/api/src/modules/auth/auth.service.ts:422-532` | a run: a user on two devices, the first logs out while its refresh is in flight, and the second is signed out too |
| `RefreshRotation.NoSuccessAfterFamilyRevocation` | `apps/api/src/modules/auth/auth.service.ts:511-532` | after a family revocation no call, begun later or in flight, ever succeeds with a token issued before it |
| `RefreshRotation.LogoutAllIsFinal` | `apps/api/src/modules/auth/auth.service.ts:511-532` | after any run from the start and a logout everywhere, no call succeeds with a token issued before |
| `AuthService.AuthService.CreateSession` | `apps/api/src/modules/auth/auth.service.ts:346-365` | a new session row |
| `AuthService.AuthService.Refresh` | `apps/api/src/modules/auth/auth.service.ts:422-486` | an undisturbed refresh, with every refusal |
| `AuthService.AuthService.ResolveSuperseded` | `apps/api/src/modules/auth/auth.service.ts:489-518` | the grace answer or the family revocation |
| `AuthService.AuthService.LogoutAll` | `apps/api/src/modules/auth/auth.service.ts:527-532` | every open session of the user is revoked |
| `AuthService.AuthService.Logout` | `apps/api/src/modules/auth/auth.service.ts:520-525` | one session is revoked, the others stay |
| `AuthService.AuthService.RevokeSession` | `apps/api/src/modules/auth/auth.service.ts:542-548` | only the owner may revoke a session |
| `AuthService.ReplayOfRotatedToken` | `apps/api/src/modules/auth/auth.service.ts:489-518` | a rotated token presented again: the new session inside the window, all sessions revoked outside it |
| `Calendar.DateRoundTrip` | `apps/api/src/modules/budgets/domain/period-bounds.ts:23` | a date built from a plain year, month and day of that month has that year, month and day |
| `Calendar.LastDayOfMonthUTC` | `apps/api/src/modules/budgets/domain/period-bounds.ts:5-7` | day 0 of the next month is the length of the month |
| `PeriodBounds.AnchorsIncrease` | `apps/api/src/modules/budgets/domain/period-bounds.ts:57-81` | period starts strictly increase |
| `PeriodBounds.PeriodOfDayUnique` | `apps/api/src/modules/budgets/domain/period-bounds.ts:42-54` | every day lies in exactly one period of the regular tiling, for every type and start day |
| `PeriodBounds.StartIsAnchor` | `apps/api/src/modules/budgets/domain/period-bounds.ts:42-54` | `periodStart` finds the start of that period |
| `PeriodBounds.NextMeetsAnchor` | `apps/api/src/modules/budgets/domain/period-bounds.ts:57-81` | from each period start `nextPeriodStart` leads exactly to the next one, if and only if that one lies outside the years 0 to 99 (weekly periods always) |
| `PeriodBounds.NthStartIsAnchor` | `apps/api/src/modules/budgets/domain/period-bounds.ts:57-81` | after any number of steps the start is the regular one: no drift after short months |
| `PeriodBounds.NextIsLater` | `apps/api/src/modules/budgets/domain/period-bounds.ts:57-81` | the next start is later than any instant it is asked for |
| `PeriodBounds.ReferenceLiesInItsPeriod` | `apps/api/src/modules/budgets/domain/period-bounds.ts:10-81` | `periodStart(r) <= r < nextPeriodStart(periodStart(r))` if and only if the start falls outside the years 0 to 99 |
| `PeriodBounds.JuneOfYearFifty` | `apps/api/src/modules/budgets/domain/period-bounds.ts:13-30` | the first of June of the year 50 lies before the month found for it |
| `ScheduleDates.DueDatesAdvance` | `apps/api/src/modules/debts/domain/schedule-dates.ts:36-48` | each due date is later than the one before, if and only if the step does not leave the years 0 to 99 for year 100 |
| `ScheduleDates.RisesIff` | `apps/api/src/modules/debts/domain/schedule-dates.ts:36-48` | the first n due dates strictly increase if and only if it is not the case that the first is meant to lie before the year 100 and the last is not |
| `ScheduleDates.DecemberOfYear99` | `apps/api/src/modules/debts/domain/schedule-dates.ts:36-48` | from the first of December of the year 99 the due date of the next month lies before that of the current one |
| `ScheduleDates.DueDatesIncrease` | `apps/api/src/modules/debts/domain/schedule-dates.ts:36-48` | from year 100 on due dates strictly increase |
| `Rounding.RoundsToNearest` | `apps/api/src/modules/debts/domain/rounding.ts:2-8` | rounding returns the nearest integer, the even one of two, and nothing else |
| `Rounding.RoundMonotone` | `apps/api/src/modules/debts/domain/rounding.ts:2-8` | rounding is monotone |
| `Amortization.ChargeIsFair` | `apps/api/src/modules/debts/domain/amortization.ts:119` | interest at any rate is monotone in the balance and never negative, which is all the schedule laws need of it |
| `Amortization.GenerateFixedInstallmentSchedule` | `apps/api/src/modules/debts/domain/amortization.ts:106-136` | the loop of the fixed-installment schedule |
| `Amortization.PrincipalPaidOff` | `apps/api/src/modules/debts/domain/amortization.ts:53-67` | along any schedule the principal parts add up to what the balance lost |
| `Amortization.FixedEndsAtZeroOrCap` | `apps/api/src/modules/debts/domain/amortization.ts:117` | a fixed-installment run ends at balance 0 or fills every allowed period |
| `Amortization.FixedPaysPrincipal` | `apps/api/src/modules/debts/domain/amortization.ts:117-135` | its principal parts add up to the principal unless it is cut off |
| `Amortization.LowerBalanceDominates` | `apps/api/src/modules/debts/domain/amortization.ts:106-136` | from a lower balance: no higher balance in any period, no more lines, no more total interest |
| `Amortization.InstallmentAboveInterest` | `apps/api/src/modules/debts/domain/amortization.ts:117-135` | an installment above the first interest pays everything off within the quotient rounded up of principal by installment minus interest |
| `Amortization.InstallmentWithinInterest` | `apps/api/src/modules/debts/domain/amortization.ts:117-135` | one that is not above it fills every period and pays nothing off |
| `Amortization.PaysOffExactlyWhen` | `apps/api/src/modules/debts/domain/amortization.ts:117-135` | a balance is paid off under some cap if and only if the installment exceeds the first interest |
| `Amortization.BuildManualSchedule` | `apps/api/src/modules/debts/domain/amortization.ts:83-100` | every hand-typed total is pure principal; the last balance is 0 if and only if the totals add up to the principal; totals that are not negative give lines a debt can be opened with |
| `Annuity.PayInInstallments` | `apps/api/src/modules/debts/domain/amortization.ts:48-67` | the loop of the annuity schedule |
| `Annuity.GenerateForCount` | `apps/api/src/modules/debts/domain/amortization.ts:35-68` | the annuity schedule, empty without periods or principal |
| `Annuity.PaymentCoversInterest` | `apps/api/src/modules/debts/domain/amortization.ts:45-46` | the rounded payment covers the rounded interest of the first period |
| `Annuity.ScheduleIsSound` | `apps/api/src/modules/debts/domain/amortization.ts:35-68` | exactly n lines, no negative part, balances that only fall and end at 0, principal parts that add up to the principal; due dates strictly increase if and only if they do not cross into the year 100 |
| `Annuity.GenerateAmortizationSchedule` | `apps/api/src/modules/debts/domain/amortization.ts:71-76` | a schedule for every debt with a term and a principal, sound and never empty |
| `AnnuityDrift.ExactStep` | `apps/api/src/modules/debts/domain/amortization.ts:45` | the payment formula and the closed form of the balance satisfy the exact recurrence |
| `AnnuityDrift.ExactEnds` | `apps/api/src/modules/debts/domain/amortization.ts:45` | the exact payment takes the principal to exactly 0 in exactly n periods |
| `AnnuityDrift.ScheduleStaysNearAnnuity` | `apps/api/src/modules/debts/domain/amortization.ts:35-68` | after every line the rounded balance is within one unit per period, compounded, of the exact one, and so is the last total of the exact payment |
| `DebtProofs.WaterfallFills` | `apps/api/src/modules/debts/debts.service.ts:265-270` | fees, then interest, then principal: the parts add up to the payment, none exceeds what is asked, and a later part is paid only once the earlier ones are settled |
| `DebtProofs.StartsAfterSettled` | `apps/api/src/modules/debts/debts.service.ts:183` | rebuilt lines are numbered after every kept one |
| `DebtProofs.RegenerationKeepsMoney` | `apps/api/src/modules/debts/debts.service.ts:172-208` | regeneration leaves every installment that holds money, and all payments, as they were |
| `DebtProofs.RegeneratedPrincipal` | `apps/api/src/modules/debts/debts.service.ts:184-198` | with a reduced installment, as many lines as are replaced and exactly the outstanding principal; with a reduced term, the outstanding principal less what the last line leaves, which is more than 0 only after all 1200 lines and is all of it when the installment does not exceed the first interest |
| `DebtProofs.StepKeeps` | `apps/api/src/modules/debts/debts.service.ts:172-391` | every operation keeps the invariant of the debt (payments whose parts add up, `paidMinor` equal to the live payments and within the total, no money on scheduled, late and skipped lines, distinct sequences, lines skipped exactly on a paid-off debt), if and only if it is neither an accepted payment that reuses the id of a deleted one nor a payoff that the linked account refuses while other lines are open |
| `DebtProofs.RunKeeps` | `apps/api/src/modules/debts/debts.service.ts:172-391` | so does every run without such payments |
| `DebtProofs.OpenedIsSound` | `apps/api/src/modules/debts/debts.service.ts:46-104` | a new debt with any schedule of the engine, or typed by hand, is sound |
| `DebtBalance.StepExcess` | `apps/api/src/modules/debts/debts.service.ts:300-308` | outstanding plus recorded principal grows by exactly what a payment goes past the outstanding balance, and by nothing else |
| `DebtBalance.OutstandingIsWhatIsLeft` | `apps/api/src/modules/debts/debts.service.ts:300-308` | over any run, outstanding is principal minus the live principal paid if and only if no payment went past the outstanding balance |
| `DebtBalance.ClampLosesMoney` | `apps/api/src/modules/debts/debts.service.ts:300-308` | an extra payment on a hand-typed schedule, then the full installment: the clamp is used and more principal is recorded than was owed |
| `DebtBalance.ReusedIdRun` | `apps/api/src/modules/debts/debts.service.ts:274-289` | a run: a part payment recorded, removed and recorded again under its id; the last call fails and the installment shows money no payment explains |
| `DebtBalance.RefusedPayoff` | `apps/api/src/modules/debts/debts.service.ts:300-344` | a payoff the linked account refuses: the debt is paid off and its line still scheduled |
| `DebtBalance.RemovalRestoresDebt` | `apps/api/src/modules/debts/debts.service.ts:350-391` | removing the payment just recorded restores the debt if and only if it did not go past the outstanding balance |
| `DebtBalance.RestoredRow` | `apps/api/src/modules/debts/debts.service.ts:350-391` | and restores every installment, except that a late one comes back as scheduled |
| `DebtBalance.StepBooks` | `apps/api/src/modules/debts/debts.service.ts:318-391` | every operation keeps one transaction of its amount on the linked account for every live payment, and no other, if and only if it is not a payment recorded against the refusal of that account |
| `DebtBalance.RunBooks` | `apps/api/src/modules/debts/debts.service.ts:318-391` | so does every run without such a payment |
| `DebtService.NextSequence` | `apps/api/src/modules/debts/debts.service.ts:183` | numbering resumes right after the largest settled sequence |
| `DebtService.DebtService.RegenerateSchedule` | `apps/api/src/modules/debts/debts.service.ts:172-208` | regeneration step by step |
| `DebtService.DebtService.SumPriorPayments` | `apps/api/src/modules/debts/debts.service.ts:251-256` | what the live payments of an installment have paid of one part |
| `DebtService.DebtService.PayInstallment` | `apps/api/src/modules/debts/debts.service.ts:245-283` | the checks, the waterfall and the update of the installment |
| `DebtService.DebtService.RecordPayment` | `apps/api/src/modules/debts/debts.service.ts:215-347` | recording step by step, the linked transaction included, with every refusal, the two that keep what was written before them included |
| `DebtService.DebtService.RemovePayment` | `apps/api/src/modules/debts/debts.service.ts:350-391` | removal step by step; the linked transaction goes first, and when that is refused nothing changes |
| `DebtService.DebtService.SweepInstallments` | `apps/api/src/modules/debts/debts.service.ts:465-485` | every overdue scheduled line becomes late, no other line changes |
| `Rollover.CascadeLoop` | `apps/api/src/modules/budgets/domain/rollover.ts:17-29` | the cascade loop |
| `Rollover.CascadeAppend` | `apps/api/src/modules/budgets/domain/rollover.ts:17-29` | a cascade can be continued from its last carry |
| `Rollover.NothingIsLost` | `apps/api/src/modules/budgets/domain/rollover.ts:1-7` | with rollover, an allocation plus all earlier spending is one amount per period so far; without it every allocation is the amount |
| `BudgetProofs.CoveredOnce` | `apps/api/src/modules/budgets/budgets.service.ts:284-286` | every instant between the first start and the last end lies in exactly one stored period |
| `BudgetProofs.GeneratedCascade` | `apps/api/src/modules/budgets/budgets.service.ts:121-152` | extending from the last carry alone gives the cascade from scratch over all periods |
| `BudgetProofs.StoredAllocationsAddUp` | `apps/api/src/modules/budgets/budgets.service.ts:138-150` | the conservation law on the stored allocations |
| `BudgetProofs.RecomputedPeriod` | `apps/api/src/modules/budgets/budgets.service.ts:276-295` | handling an event corrects the period that holds it and leaves the spending of the others |
| `BudgetProofs.UpdatedSpent` | `apps/api/src/modules/budgets/budgets.service.ts:331-338` | an updated transaction, handled for its old and its new place, leaves all stored spending right |
| `BudgetRuns.StepKeeps` | `apps/api/src/modules/budgets/budgets.service.ts:88-347` | every operation keeps the periods contiguous, the allocations equal to the cascade from scratch, and the alert record sound |
| `BudgetRuns.StepSpent` | `apps/api/src/modules/budgets/budgets.service.ts:156-175` | every operation on an active budget keeps each stored `spentMinor` equal to the live expenses in its interval and category scope |
| `BudgetRuns.RunKeeps` | `apps/api/src/modules/budgets/budgets.service.ts:88-347` | so does every run (tiling, cascade, alerts) |
| `BudgetRuns.RunSpent` | `apps/api/src/modules/budgets/budgets.service.ts:156-347` | and every run during which the budget is active (spending) |
| `BudgetRuns.SpentAfterPause` | `apps/api/src/modules/budgets/budgets.service.ts:88-106` | over any run of a paused budget, activation included, the stored spending stays right if and only if the live expenses in scope add up, in every stored period, to what they did before |
| `BudgetRuns.PausedExpenseIsLost` | `apps/api/src/modules/budgets/budgets.service.ts:276-278` | a budget is paused, an expense in scope recorded, the budget activated: its stored spending is wrong |
| `BudgetRuns.EveryBudgetIsSound` | `apps/api/src/modules/budgets/budgets.service.ts:88-347` | from a budget without periods on, every run keeps all of these |
| `BudgetRuns.AlertsAreDistinct` | `apps/api/src/modules/budgets/budgets.service.ts:297-319` | at most one alert per period and threshold |
| `BudgetRuns.AlertForExactly` | `apps/api/src/modules/budgets/budgets.service.ts:303-310` | a threshold is announced if and only if it is the highest one crossed and none as high was announced for the period |
| `BudgetRuns.CrossedIsShare` | `apps/api/src/modules/budgets/budgets.service.ts:304-305` | a threshold is crossed if and only if the spending is at least that percentage of the allocation: cutting the figure to two decimals changes nothing |
| `BudgetRuns.GenerationReaches` | `apps/api/src/modules/budgets/budgets.service.ts:128-153` | one extension adds only periods that start by the horizon and the end date, and goes on until the next one would not, or 60 have been added |
| `BudgetService.BudgetService.SpentIn` | `apps/api/src/modules/budgets/budgets.service.ts:156-175` | the aggregate over the live expenses of an interval |
| `BudgetService.BudgetService.GeneratePeriods` | `apps/api/src/modules/budgets/budgets.service.ts:114-153` | generation, and its extension from the last stored period |
| `BudgetService.BudgetService.AddPeriods` | `apps/api/src/modules/budgets/budgets.service.ts:131-152` | the loop with its guard |
| `BudgetService.BudgetService.Recascade` | `apps/api/src/modules/budgets/budgets.service.ts:182-193` | only stale allocations are rewritten, all of them |
| `BudgetService.BudgetService.Update` | `apps/api/src/modules/budgets/budgets.service.ts:88-106` | a change of amount or rollover cascades, no other change does |
| `BudgetService.BudgetService.EvaluateAlert` | `apps/api/src/modules/budgets/budgets.service.ts:298-319` | the highest threshold crossed is announced if none as high was |
| `BudgetService.BudgetService.RecomputePeriodFor` | `apps/api/src/modules/budgets/budgets.service.ts:276-295` | the handling of one event |
| `BudgetService.BudgetService.OnTransactionUpdated` | `apps/api/src/modules/budgets/budgets.service.ts:331-338` | old place first, then new place |
| `BudgetService.BudgetService.OnTransactionCreated` | `apps/api/src/modules/budgets/budgets.service.ts:321-328` | the place of the new transaction |
| `BudgetService.BudgetService.OnTransactionDeleted` | `apps/api/src/modules/budgets/budgets.service.ts:340-347` | the place of the deleted transaction |
| `BudgetService.BudgetService.ExtendPeriods` | `apps/api/src/modules/budgets/budgets.service.ts:197-202` | the nightly extension |
| `Categories.CreateKeepsDepth` | `apps/api/src/modules/categories/categories.service.ts:75-108` | creation keeps every parent top-level and of the same kind |
| `Categories.RunKeepsNamesAndDepth` | `apps/api/src/modules/categories/categories.service.ts:57-153` | over every run in one language no two live siblings show the same name, and the depth rule holds |
| `Categories.LanguageSwitchCollides` | `apps/api/src/modules/categories/domain/category-i18n.ts:54-64` | in another language two siblings can show the same name |
| `Categories.RemovalLeavesNoOrphan` | `apps/api/src/modules/categories/categories.service.ts:122-153` | after a deletion every transaction is filed under a live category, if and only if transactions of the category were not reassigned to that same category |
| `Categories.SelfReassignmentOrphans` | `apps/api/src/modules/categories/categories.service.ts:134-152` | one transaction whose category is deleted with itself as the target is left under a deleted category |
| `Categories.DescendantIdsIsClosure` | `apps/api/src/modules/categories/categories.service.ts:157-160` | under the depth rule the one-level lookup finds exactly the descendants at any depth |
| `CategoriesService.CategoriesService.Create` | `apps/api/src/modules/categories/categories.service.ts:75-108` | creation with each refusal, a taken name included |
| `CategoriesService.CategoriesService.NameIsTaken` | `apps/api/src/modules/categories/categories.service.ts:57-73` | a live sibling other than the one excepted shows the same name, letter case aside |
| `CategoriesService.CategoriesService.Update` | `apps/api/src/modules/categories/categories.service.ts:110-120` | a new name, refused when a sibling shows it |
| `CategoriesService.CategoriesService.Remove` | `apps/api/src/modules/categories/categories.service.ts:122-153` | deletion with each refusal; the transactions filed under the category are moved to the target and counted |
| `BudgetRepair.EmptyPlanMeansRight` | `apps/api/scripts/repair-budget-periods.ts:114-121` | a plan is empty if and only if the stored figures are right |
| `BudgetRepair.RepairIsIdempotent` | `apps/api/scripts/repair-budget-periods.ts:76-172` | from any stored periods: after a repair the figures are right and planning again finds nothing |
| `BudgetRepair.KeptBudgetNeedsNoRepair` | `apps/api/scripts/repair-budget-periods.ts:76-147` | a budget kept by the service needs no repair |
| `BudgetRepair.Repair.PlanBudget` | `apps/api/scripts/repair-budget-periods.ts:76-147` | the plan, in chronological order |
| `BudgetRepair.Repair.WriteChanges` | `apps/api/scripts/repair-budget-periods.ts:156-172` | writing the plan |
| `Similarity.MatchingIsBalanced` | `apps/api/src/modules/import/domain/similarity.ts:12-23` | both match arrays hold the same number of flags, over the same characters |
| `Similarity.ScanStaysInside` | `apps/api/src/modules/import/domain/similarity.ts:30` | the unbounded scan always stops inside the second string |
| `Similarity.MarkMatches` | `apps/api/src/modules/import/domain/similarity.ts:12-23` | the matching loops, in place on the two arrays |
| `Similarity.CountTranspositions` | `apps/api/src/modules/import/domain/similarity.ts:26-33` | the walk in step counts the places where the matched characters differ |
| `Similarity.Jaro` | `apps/api/src/modules/import/domain/similarity.ts:2-36` | the Jaro score |
| `Similarity.TranspositionsBound` | `apps/api/src/modules/import/domain/similarity.ts:26-33` | no more transpositions than matches |
| `Similarity.JaroRange` | `apps/api/src/modules/import/domain/similarity.ts:2-36` | the score lies between 0 and 1 and is 1 if and only if the strings are equal |
| `Similarity.JaroWinkler` | `apps/api/src/modules/import/domain/similarity.ts:39-47` | the prefix loop and the boost |
| `Similarity.JaroWinklerRange` | `apps/api/src/modules/import/domain/similarity.ts:39-47` | the boost never lowers the score, keeps it within 1, and reaches 1 for equal strings only |
| `ImportDedupe.FindProbableDuplicate` | `apps/api/src/modules/import/domain/dedupe.ts:16-30` | the first stored transaction of the same account and amount, within three days and at least 0.85 similar |
| `ImportDedupe.ClassifyRows` | `apps/api/src/modules/import/import.service.ts:113-171` | the classification loop |
| `ImportDedupe.SeenIsEarlier` | `apps/api/src/modules/import/import.service.ts:152-158` | what the loop has seen are the fingerprints of earlier readable rows that are not stored |
| `ImportDedupe.EveryRowOnce` | `apps/api/src/modules/import/import.service.ts:117-171` | every row that is not blank lands in exactly one list, exactly once, and a blank one in none |
| `ImportDedupe.ImportedByRule` | `apps/api/src/modules/import/import.service.ts:117-171` | a row is imported if and only if it can be read, its fingerprint is neither stored nor that of an earlier row, and no stored transaction is probably the same |
| `ImportDedupe.ImportsAreNew` | `apps/api/src/modules/import/import.service.ts:152-170` | fingerprints to import are absent from the account and pairwise distinct |
| `ImportDedupe.ImportsArePositive` | `apps/api/src/modules/import/domain/map-row.ts:105-113` | every amount to import is positive: a row whose amount is 0 is an error |
| `ImportDedupe.ReuploadImportsNothing` | `apps/api/src/modules/import/import.service.ts:109-171` | with everything stored still there and the imported fingerprints stored too, nothing is imported again |
| `ImportBatches.ForcedReuploadImportsNothing` | `apps/api/src/modules/import/import.service.ts:202-246` | upload, full commit, forced upload of the same file: nothing to import |
| `ImportBatches.RevertUndoesCommit` | `apps/api/src/modules/import/import.service.ts:249-269` | a batch committed and reverted leaves the live transactions as they were |
| `ImportBatches.RetriedCommitDuplicates` | `apps/api/src/modules/import/import.service.ts:212-231` | a commit that fails and a later one that succeeds create the rows before the refused one and then every accepted row; each accepted row is created once if and only if the first attempt stopped at its first row |
| `ImportBatches.FailedCommitRollsBackIff` | `apps/api/src/modules/import/import.service.ts:212-231` | a failing commit leaves everything as it was if and only if its first row is the refused one |
| `ImportBatches.RowImportedTwice` | `apps/api/src/modules/import/import.service.ts:86-231` | a run from an empty database: a file of two rows is uploaded, the second dated before the account was opened; its commit is refused, and committed without that row it holds its first row twice |
| `ImportService.ImportService.Upload` | `apps/api/src/modules/import/import.service.ts:86-190` | upload: each refusal, classification, the batch with its counters and the three staged lists |
| `ImportService.ImportService.Commit` | `apps/api/src/modules/import/import.service.ts:202-246` | one transaction per accepted row, up to the first the account refuses |
| `ImportService.ImportService.Revert` | `apps/api/src/modules/import/import.service.ts:249-269` | refused for a batch that is not completed or was edited; otherwise every transaction of the batch is deleted |
| `DecimalText.ParseAfterPrint` | `apps/api/src/modules/export/domain/decimal-format.ts:2-10` | every amount, printed with any number of minor units, is parsed back to itself |
| `DecimalText.ParsedExactly` | `apps/api/src/modules/import/domain/amount-parser.ts:34-46` | a parsed amount is exactly the decimal number its text writes if and only if no digit but 0 stands behind a second decimal separator; with one separator at most nothing is lost and no decimal more than the currency has is accepted |
| `DecimalText.WrittenIsEveryDigit` | `apps/api/src/modules/import/domain/amount-parser.ts:17-34` | the number a text writes is made of all its digits, in order |
| `DecimalText.SecondSeparatorExample` | `apps/api/src/modules/import/domain/amount-parser.ts:34-46` | with two minor units 1.23.45 is read as 1.23, without an error |
| `DecimalText.CleaningKeepsDigits` | `apps/api/src/modules/import/domain/amount-parser.ts:17-33` | cleaning keeps every digit, in order, but those that are the thousand separator, and leaves no white space, no apostrophe and no thousand separator |
| `DecimalText.ParseAmountToMinor` | `apps/api/src/modules/import/domain/amount-parser.ts:11-47` | the parser with its two refusals |
| `Money.BankersRoundDiv` | `apps/api/src/kernel/money/money.ts:102-115` | the rounding division |
| `Money.RoundDivExactly` | `apps/api/src/kernel/money/money.ts:102-115` | it returns the nearest integer, the even one of two, and nothing else |
| `Money.RoundDivIsOdd` | `apps/api/src/kernel/money/money.ts:102-115` | it treats both signs alike |
| `Money.RoundDivMonotone` | `apps/api/src/kernel/money/money.ts:102-115` | it is monotone |
| `Money.RoundDivIsBankersRound` | `apps/api/src/kernel/money/money.ts:102-115` | it agrees with the rounding of the exact quotient that the debt engine uses |
| `Money.ParseDecimalOfPrinted` | `apps/api/src/kernel/money/money.ts:92-99` | a printed amount read as a decimal is exactly the amount over its power of ten |
| `Money.Convert` | `apps/api/src/kernel/money/money.ts:92-143` | conversion, rounded once; a rate is refused if and only if its digits, behind a minus sign taken off first, are no text `BigInt` reads |
| `Money.ConsolidateToBase` | `apps/api/src/modules/reporting/domain/consolidate.ts:15-27` | the total is within half a minor unit per converted amount of the exact sum, and fails if and only if a needed rate cannot be read |
| `Allocation.Allocate` | `apps/api/src/kernel/money/money.ts:62-89` | the shares: each quotient truncated, and one unit more for the first ones while a remainder is left |
| `Allocation.DistributeRemainder` | `apps/api/src/kernel/money/money.ts:79-86` | the loop never comes round to a share twice |
| `Allocation.RemainderBound` | `apps/api/src/kernel/money/money.ts:75-77` | the remainder is smaller than the number of ratios, and not negative when no ratio is |
| `Allocation.SharesAddUp` | `apps/api/src/kernel/money/money.ts:75-88` | the shares add up to the amount if and only if truncation does not already distribute more than there is |
| `Allocation.NonNegativeRatios` | `apps/api/src/kernel/money/money.ts:62-89` | with no negative ratio the shares add up for either sign, and each is its quota rounded down or that plus one |
| `Allocation.NegativeRatioInvents` | `apps/api/src/kernel/money/money.ts:58-61` | 2 split by 6, -1 and -1 millionths becomes 3 |

## Left out

- Web front end, service worker, controllers, request schemas, facades and cron wiring: plumbing.
- Hashing, tokens, password and OAuth logins, mail and push notifications: only sessions and their links are modelled.
- Database isolation anomalies: each database transaction and each query is one step, and so are the family revocation
  and the close-and-create of a refresh.
- FeedRuns.RunKeeps: runs in which two rows of different tables, now or while a page is read, share timestamp and id are
  not covered; `FeedPaging.DrainIsComplete` says what such a pair does to a database at rest.
- A crash between the effect of a pushed operation and its key: a handler that throws is modelled, this gap is not.
- Cursor encoding (base64 and JSON), the JSON shape of feed entries, and the collation of ids: keys are compared as
  pairs.
- The snapshot endpoint of sync and its minimum client versions beyond one flag.
- Transactions: descriptions, labels, tags, payees, currencies, rules that pick a category, bulk operations, listings.
- Float error in rates and in the scaling of ratios: rates are exact reals, ratios are integers in millionths.
- DebtService.DebtService.RecordPayment: whether the linked account refuses a transaction is a parameter, and of that
  transaction only the amount is kept; a failing event after a payoff is left out.
- Debts: name, direction, payment dates, notes, deletion of a debt, statuses set by hand, payoff simulation, summaries
  and events; one debt is modelled, with the replay check of payment ids within it.
- Budgets: names, currencies, the overlap rule (an update can change the end date without it), templates, deletion; one
  budget is modelled, as the services treat each budget on its own. `monthStartDay` is constant.
- Budgets: fee lines and category reassignments raise no event for the rows they write, so runs contain plain
  transactions only, and a deleted category is one no live transaction uses.
- Categories: ordering, colors and icons, the creation of system categories. Labels and letter case are parameters.
- Budget repair: report counters, audit rows and the loop over several budgets.
- Import: sources, file parsing and sniffing, file hashing, the reading of dates and columns (one function of the row),
  the notes, payee and reference of a candidate, and the ownership check of batches (one user is modelled).
- ImportService.ImportService.Upload: whether the currency of the account is known is a flag.
- Import: what removing a transaction cascades to; the rows of a batch are taken to have no fee lines.
- Similarity and amount texts: strings are sequences of Unicode scalar values, not of UTF-16 code units.
- Display formatting of money, addition, comparison and the other one-line operations: each would restate itself.
- Recurrences, forecasts, goals, streaks, suggestions, login throttling, exports other than the decimal text.
