# restate-ledger, modelled in Dafny

restate-ledger is a double-entry ledger built on Restate virtual objects. Each account
keeps an available balance, a total of its holds, and one balance record per hold. A
transfer service plans a list of money-movement instructions into per-account
operations and runs them through a saga. When an operation fails terminally, the saga
runs the reversals of the operations that succeeded before it, last first.

The repository has three generations, and this project models the core of each:

- `com.lekha.accounts` / `transactions`: the oldest accounts and transfer service
  (modules `LegacyHoldBalances`, `LegacyAccounts`, `LegacyAccountInvariant`,
  `LegacyOperations`, `LegacyPlanner`, `LegacyTransfer`);
- `src/.../account` / `transfer`: accounts with typed holds, transactional operations
  and the drain algorithm, the ten-variant operation table, the planners and the
  executor (modules `AccountBalances`, `HoldBalances`, `Accounts`, `Draining`,
  `AccountInvariant`, `AccountScenarios` (the account tests' scenarios with their numbers),
  `Operations`, `ServicePlanners`, `ServiceExecutor`,
  `ServiceTransfer`);
- `ledger/`: the latest planner with its serial and cleanup phases, the scoped saga,
  the executor, the transfer service and the batcher (modules `LedgerPlanners`,
  `Sagas`, `Worlds`, `LedgerExecutor`, `LedgerTransfer`, `Batchers`).

The leaf rules are shared: `Monetary` (currency-tagged integer minor units with
checked arithmetic), `AccountTypes` (debit/credit polarity, both tables),
`AccountOptionsStates` (set-once options) and `BalanceChecks`.

Modelling choices:

- An account is an immutable record. Every handler is a pure function returning a
  `Step(account, result)`. `account` is exactly what the handler's state objects write
  when they are closed, on the success path and on the failure path. A terminal error
  is `Err(kind)`.
- A set of accounts (a "world") is a map from account id to account. An RPC to an
  account is a function call on its entry.
- Executors and sagas are folds over sequences. The function that executes one
  operation is a parameter of the folds; the lemmas are stated for the real one.
- Hold ids, transaction ids, invocation ids and the batcher's scheduled invocation id
  are parameters.
- Integers are unbounded, as Java's `BigInteger` minor units are.

## Model

| member | source | states |
|---|---|---|
| Monetary.Zero | src/main/java/com/lekha/money/Money.java:9-11 | zero of a currency is that currency with amount 0 |
| Monetary.EnsureCurrencyMatches | src/main/java/com/lekha/money/Money.java:33-38 | passes exactly when the currencies agree, else a terminal currency-mismatch failure |
| Monetary.IsLessThan | src/main/java/com/lekha/money/Money.java:13-16 | fails on a currency mismatch; otherwise true exactly when the first amount is strictly smaller |
| Monetary.IsGreaterThan | src/main/java/com/lekha/money/Money.java:18-21 | fails on a currency mismatch; otherwise true exactly when the first amount is strictly larger |
| Monetary.Add | src/main/java/com/lekha/money/Money.java:23-26 | fails on a currency mismatch; otherwise the receiver's currency with the sum of the amounts |
| Monetary.Subtract | src/main/java/com/lekha/money/Money.java:28-31 | fails on a currency mismatch; otherwise the receiver's currency with the difference, which may be negative |
| Monetary.EnsurePositive | src/main/java/com/lekha/money/Money.java:40-44 | fails exactly when the amount is zero or negative |
| Monetary.Min | src/main/java/com/lekha/money/Money.java:51-56 | fails on a mismatch; otherwise one of the two operands, no larger than either, and the argument on a tie |
| Monetary.ZeroIsIdentity | src/main/java/com/lekha/money/Money.java:9-31 | adding or subtracting zero of the same currency gives the amount back |
| Monetary.AddThenSubtract | src/main/java/com/lekha/money/Money.java:23-31 | subtracting what was added restores the original amount |
| Monetary.SubtractThenAdd | src/main/java/com/lekha/money/Money.java:23-31 | adding back what was subtracted restores the original amount |
| Monetary.ComparisonsExclusive | src/main/java/com/lekha/money/Money.java:13-21 | less-than and greater-than never both hold, neither holds of equal amounts, and they are converse |
| Monetary.MismatchFailsEverywhere | src/main/java/com/lekha/money/Money.java:13-56 | with different currencies every binary operation fails with the mismatch error |
| AccountTypes.PolarityIsExclusive | src/main/java/com/lekha/account/AccountType.java:16-22 | in both tables credits decrease the balance exactly when debits do not |
| AccountTypes.ServiceTable | src/main/java/com/lekha/account/AccountType.java:3-8 | the service generation: debits decrease the balance of liability and expense accounts only |
| AccountTypes.LedgerTable | ledger/src/main/java/com/lekha/account/AccountType.java:3-8 | the ledger generation: debits decrease the balance of liability, equity and revenue accounts only |
| AccountTypes.TablesAgreeOnlyOnAssetAndLiability | ledger/src/main/java/com/lekha/account/AccountType.java:3-8 | the two generations' tables give the same polarity for asset and liability accounts and differ on the other three |
| AccountOptionsStates.Create | ledger/src/main/java/com/lekha/account/AccountOptionsState.java:25-33 | succeeds exactly when no options are stored, then stores the given options; otherwise fails with options already existing |
| AccountOptionsStates.GetExisting | ledger/src/main/java/com/lekha/account/AccountOptionsState.java:35-47 | returns the stored options, or fails with options not present |
| AccountOptionsStates.SetOnce | ledger/src/main/java/com/lekha/account/AccountOptionsState.java:21-38 | options can be created once, a second creation fails, and the created options read back unchanged |
| BalanceChecks.CheckEnoughBalance | ledger/src/main/java/com/lekha/account/BalanceUpdateChecks.java:10-21 | passes exactly when the currencies agree and the balance is at least the amount; a mismatch or an insufficient balance fails terminally |
| BalanceChecks.ExactAmountPasses | ledger/src/main/java/com/lekha/account/BalanceUpdateChecks.java:10-21 | taking the whole balance passes the check |
| BalanceChecks.PassingCheckKeepsNonNegative | ledger/src/main/java/com/lekha/account/BalanceUpdateChecks.java:10-21 | after a passing check the subtraction succeeds and leaves a non-negative balance |
| AccountBalances.Empty | src/main/java/com/lekha/accounts/AccountBalancesState.java:18-22 | both balances are zero in the given currency |
| AccountBalances.Create | src/main/java/com/lekha/accounts/AccountBalancesState.java:34-40 | fails when balances are already stored; otherwise zero balances marked for flushing |
| AccountBalances.GetExisting | src/main/java/com/lekha/accounts/AccountBalancesState.java:42-45 | fails when nothing is stored; otherwise the stored balances, not marked for flushing |
| AccountBalances.AddAvailable | src/main/java/com/lekha/accounts/AccountBalancesState.java:47-49 | succeeds exactly on a matching currency; available grows by the amount, hold unchanged |
| AccountBalances.SubtractAvailable | src/main/java/com/lekha/accounts/AccountBalancesState.java:51-58 | succeeds exactly on a matching currency and enough available; available shrinks by the amount, hold unchanged |
| AccountBalances.Hold | src/main/java/com/lekha/accounts/AccountBalancesState.java:60-69 | succeeds exactly when available covers the amount in the same currency; the amount moves from available to hold |
| AccountBalances.ReleaseHold | src/main/java/com/lekha/accounts/AccountBalancesState.java:71-81 | succeeds exactly when hold covers the amount in the same currency; the amount moves from hold to available |
| AccountBalances.SubtractHold | src/main/java/com/lekha/accounts/AccountBalancesState.java:83-90 | succeeds exactly when hold covers the amount; hold shrinks by it, available unchanged |
| AccountBalances.AddHold | src/main/java/com/lekha/account/Account.java:313 | succeeds exactly on a matching currency; hold grows by the amount, available unchanged |
| AccountBalances.Written | src/main/java/com/lekha/accounts/AccountBalancesState.java:96-110 | a view marked for flushing is written, an unmarked one leaves storage as it was |
| AccountBalances.Flush | src/main/java/com/lekha/accounts/AccountBalancesState.java:101-110 | fails exactly when a pending change is flushed from a shared context; otherwise writes as `Written` says |
| AccountBalances.HoldMovesWithinAccount | src/main/java/com/lekha/accounts/AccountBalancesState.java:60-81 | holding and releasing keep the sum of available and hold |
| AccountBalances.HoldThenRelease | src/main/java/com/lekha/accounts/AccountBalancesState.java:60-81 | releasing what was just held restores both balances |
| AccountBalances.UntouchedViewWritesNothing | src/main/java/com/lekha/accounts/AccountBalancesState.java:42-45 | a loaded, unmutated view flushes nothing in either context |
| HoldBalances.Create | src/main/java/com/lekha/account/HoldBalanceState.java:39-46 | fails when the hold exists; otherwise an empty hold of the given id, type and currency |
| HoldBalances.GetExisting | src/main/java/com/lekha/account/HoldBalanceState.java:52-55 | the stored hold, or a not-present failure |
| HoldBalances.GetExistingOrCreate | src/main/java/com/lekha/account/HoldBalanceState.java:57-63 | never fails: the stored hold, or a new empty one of the given type |
| HoldBalances.AddAvailable | src/main/java/com/lekha/account/HoldBalanceState.java:70-72 | succeeds exactly on a matching currency; the hold grows by the amount, details unchanged |
| HoldBalances.SubtractAvailable | src/main/java/com/lekha/account/HoldBalanceState.java:74-81 | succeeds exactly when the hold covers the amount in its currency; the hold shrinks by it |
| HoldBalances.EnsureHoldType | src/main/java/com/lekha/account/HoldBalanceState.java:125-130 | passes exactly when the hold has the expected type |
| HoldBalances.GetExistingOfType | src/main/java/com/lekha/account/Account.java:225-226 | the stored hold when it exists with the expected type; not present or type mismatch otherwise |
| HoldBalances.Summary | src/main/java/com/lekha/account/HoldBalanceState.java:120-123 | the summary carries the hold's id, type and balance |
| HoldBalances.Written | src/main/java/com/lekha/account/HoldBalanceState.java:105-118 | an unmarked view writes nothing; a marked zero hold is deleted, a marked non-zero one stored |
| HoldBalances.Flush | src/main/java/com/lekha/account/HoldBalanceState.java:105-118 | fails exactly when a pending change is flushed from a shared context |
| HoldBalances.WrittenTouchesOnlyItsHold | src/main/java/com/lekha/account/HoldBalanceState.java:105-118 | flushing one hold leaves every other hold as it was |
| HoldBalances.FlushKeepsNoZeroHolds | src/main/java/com/lekha/account/HoldBalanceState.java:111-115 | storage never keeps a zero-balance hold after a flush |
| HoldBalances.UnmutatedHoldWritesNothing | src/main/java/com/lekha/account/HoldBalanceState.java:57-68 | opening a hold (existing or new) and closing it untouched writes nothing |
| HoldBalances.AddThenSubtract | src/main/java/com/lekha/account/HoldBalanceState.java:70-81 | taking out what was just added restores the hold |
| Accounts.Init | src/main/java/com/lekha/account/Account.java:85-96 | first use stores the options and zero balances; afterwards the state is unchanged and the current balances are returned |
| Accounts.GetSummary | src/main/java/com/lekha/account/Account.java:152-158 | the shared-context summary handler; what it returns is stated by AccountBalances.StoredSummary |
| AccountBalances.StoredSummary | src/main/java/com/lekha/account/Account.java:152-158 | the stored balances exactly when some are stored, otherwise a balances-not-present failure |
| Accounts.Debit | src/main/java/com/lekha/account/Account.java:98-123 | succeeds exactly when the account exists, the currency matches and, where debits decrease the balance, available covers the amount; available moves by the amount in the type's direction and nothing changes on failure |
| Accounts.Credit | src/main/java/com/lekha/account/Account.java:125-150 | the mirror of Debit with the credit polarity |
| Accounts.Hold | src/main/java/com/lekha/account/Account.java:160-203 | refused on types whose debits do not decrease the balance and for an existing hold id; otherwise the amount moves from available to hold and a new hold of that amount is stored (none for a zero amount) |
| Accounts.MoveIntoHold | src/main/java/com/lekha/account/Account.java:177-201 | the checked move of the amount into the aggregate hold and the new hold record |
| Accounts.ReleaseHold | src/main/java/com/lekha/account/Account.java:205-254 | an absent hold releases zero and changes nothing; a hold of another type or a non-positive one fails; otherwise its whole balance returns to available and the hold is deleted |
| Accounts.GetHoldSummary | src/main/java/com/lekha/account/Account.java:256-272 | the hold's summary when it exists with the expected type |
| Accounts.DebitHold | src/main/java/com/lekha/account/Account.java:274-299 | succeeds exactly when the user hold and the aggregate hold both cover the amount; both shrink by it, available unchanged, and an emptied hold is deleted |
| Accounts.CreditHold | src/main/java/com/lekha/account/Account.java:301-330 | the hold (created with the given type if absent) and the aggregate hold grow by the amount |
| Accounts.AddToHold | src/main/java/com/lekha/account/Account.java:311-328 | the checked growth of the aggregate hold and of the hold record |
| Accounts.TransactionalDebit | src/main/java/com/lekha/account/Account.java:332-365 | without options it fails; on types whose debits do not decrease the balance it is a plain debit with an empty transaction hold; on the other types it drains the transaction hold, then available (stated in full by AccountInvariant.TransactionalDebitDrains) |
| Accounts.TransactionalCredit | src/main/java/com/lekha/account/Account.java:448-471 | on types whose credits decrease the balance a plain credit with an empty transaction hold, otherwise a credit into the transaction's hold |
| Accounts.TransactionReleaseHold | src/main/java/com/lekha/account/Account.java:434-446 | a user hold under the transaction id is refused; a released transaction hold hands back its whole balance and is gone |
| Accounts.TransactionalHold | src/main/java/com/lekha/account/Account.java:473-480 | succeeds exactly when a user hold would; the hold is recorded as a transaction hold under the transaction id |
| Draining.BalanceSumNonNegative | src/main/java/com/lekha/account/Account.java:373-376 | the holds' total is non-negative when every hold is |
| Draining.NothingOwedDrawsNothing | src/main/java/com/lekha/account/Account.java:390-393 | when nothing is owed the reference split takes nothing from any hold |
| Draining.DrawnShift | src/main/java/com/lekha/account/Account.java:390-403 | after the first hold, the split of the rest is the split of what is still owed |
| Draining.DrainHolds | src/main/java/com/lekha/account/Account.java:390-403 | the loop keeps one view per hold, stops at once when nothing is owed, and fails on a negative amount |
| Draining.GreedyStep | src/main/java/com/lekha/account/Account.java:390-403 | one loop step extends the greedy shape of the remaining holds to the whole list |
| Draining.SkipCase | src/main/java/com/lekha/account/Account.java:396-397 | a hold with nothing to give is skipped without being touched |
| Draining.TakeCase | src/main/java/com/lekha/account/Account.java:396-402 | a hold with a balance gives the smaller of its balance and what is owed, from the hold and the aggregate hold alike |
| Draining.DrainHoldsIsGreedy | src/main/java/com/lekha/account/Account.java:387-403 | the loop takes from each hold exactly the reference split, and from the aggregate hold their sum |
| Draining.SumOnto | src/main/java/com/lekha/account/Account.java:373-376 | succeeds exactly when every hold shares the currency; the result adds all hold balances |
| Draining.Drain | src/main/java/com/lekha/account/Account.java:367-432 | a drain of more than holds plus available fails the sufficiency check and touches nothing |
| Draining.DrainIsGreedy | src/main/java/com/lekha/account/Account.java:367-415 | the drain succeeds exactly for amounts from zero up to holds plus available; it takes the greedy split from the holds and the rest from available; on failure nothing changes; a negative amount fails terminally when there is a hold and with the internal remainder error otherwise |
| Draining.DrainNegative | src/main/java/com/lekha/account/Account.java:390-415 | a negative amount passes the sufficiency check and then fails as the positivity check or the remainder check says |
| Draining.DrainInRange | src/main/java/com/lekha/account/Account.java:387-415 | an amount in range drains the holds greedily, the rest from available, and leaves nothing owed |
| AccountInvariant.ValidBalancesNonNegative | src/main/java/com/lekha/account/Account.java:160-254 | on a valid account both balances are non-negative, no hold exceeds the aggregate hold, and the aggregate is zero exactly when there are no holds |
| AccountInvariant.UninitialisedIsValid | src/main/java/com/lekha/account/Account.java:85-96 | an account nobody has initialised satisfies the invariant |
| AccountInvariant.InitIdempotent | src/main/java/com/lekha/account/Account.java:85-96 | init keeps the invariant and succeeds; a second init, with any options, changes nothing and returns the same summary |
| AccountInvariant.DebitKeepsValid | src/main/java/com/lekha/account/Account.java:98-123 | a debit of a non-negative amount keeps the invariant and changes nothing when it fails |
| AccountInvariant.CreditKeepsValid | src/main/java/com/lekha/account/Account.java:125-150 | a credit of a non-negative amount keeps the invariant and changes nothing when it fails |
| AccountInvariant.HoldKeepsValid | src/main/java/com/lekha/account/Account.java:160-203 | placing a hold keeps the invariant, in particular the aggregate hold equals the sum of the holds |
| AccountInvariant.ReleaseHoldKeepsValid | src/main/java/com/lekha/account/Account.java:205-254 | releasing keeps the invariant, and releasing an existing hold of the right type always succeeds |
| AccountInvariant.DebitHoldKeepsValid | src/main/java/com/lekha/account/Account.java:274-299 | debiting a hold keeps the invariant for any amount |
| AccountInvariant.CreditHoldKeepsValid | src/main/java/com/lekha/account/Account.java:301-330 | crediting a hold keeps the invariant |
| AccountInvariant.TransactionalDebitDrains | src/main/java/com/lekha/account/Account.java:332-354 | in the native currency the debit succeeds exactly when the transaction hold plus available cover it, takes the smaller of hold and amount from the hold (deleting an emptied hold) and the rest from available, and otherwise fails with nothing changed |
| AccountInvariant.TransactionalDebitKeepsValid | src/main/java/com/lekha/account/Account.java:332-365 | the transactional debit keeps the invariant and changes nothing when it fails |
| AccountInvariant.TransactionalDebitMismatch | src/main/java/com/lekha/account/Account.java:373-385 | a transactional debit in a foreign currency fails with a currency mismatch before anything is taken |
| AccountInvariant.TransactionalCreditKeepsValid | src/main/java/com/lekha/account/Account.java:448-471 | the transactional credit keeps the invariant |
| AccountInvariant.HoldThenRelease | src/main/java/com/lekha/account/Account.java:160-254 | releasing a hold just placed returns its amount and restores the account exactly |
| AccountInvariant.DebitHoldLeavesOtherHolds | src/main/java/com/lekha/account/Account.java:274-299 | debiting one hold leaves every other hold untouched |
| AccountInvariant.DebitThenCredit | src/main/java/com/lekha/account/Account.java:98-150 | a credit of the same amount undoes a debit exactly |
| AccountInvariant.CreditThenDebit | src/main/java/com/lekha/account/Account.java:98-150 | a debit of the same amount undoes a credit exactly |
| AccountInvariant.DebitHoldThenCreditHold | src/main/java/com/lekha/account/Account.java:274-330 | crediting a user hold back undoes a hold debit exactly, even when the debit deleted the hold |
| AccountInvariant.TransactionalCreditThenDebit | src/main/java/com/lekha/account/Account.java:332-471 | on a valid account whose transaction hold is absent or of the transaction type, a transactional debit of what a transactional credit just added succeeds and restores the account exactly |
| AccountInvariant.HoldCreditUndone | src/main/java/com/lekha/account/Account.java:448-471 | where the credit goes into the transaction hold, the debit drains exactly that amount back out, deleting a hold the credit created |
| AccountInvariant.TransactionalDebitThenCredit | src/main/java/com/lekha/account/Account.java:332-471 | a transactional debit that the transaction hold alone covers is undone exactly by a transactional credit of the same amount |
| AccountInvariant.CoveredDrainUndone | src/main/java/com/lekha/account/Account.java:332-471 | a covered drain takes the whole amount from the transaction hold, and the credit puts it back there |
| AccountInvariant.TransactionalDebitBeyondHoldStrands | src/main/java/com/lekha/account/Account.java:332-471 | a transactional debit that draws on available beyond the transaction hold is not undone by the credit: available stays short by the overdraw and the hold keeps it |
| AccountInvariant.TransactionReleaseMovesHold | src/main/java/com/lekha/account/Account.java:434-446 | releasing a transaction hold that is absent or of the transaction type succeeds, moves its whole balance to available, deletes it, and leaves every other hold alone |
| AccountScenarios.InitStartsAtZero | src/test/java/com/lekha/account/AccountTest.java:29-33 | a freshly initialised account of either type reports zero available and zero on hold |
| AccountScenarios.LiabilityCreditThenDebit | src/test/java/com/lekha/account/AccountTest.java:35-51 | a liability credited 1000 and debited 750 reports 250 available, and the stored summary agrees |
| AccountScenarios.AssetDebitThenCredit | src/test/java/com/lekha/account/AccountTest.java:53-69 | an asset debited 1000 and credited 750 reports 250 available, and the stored summary agrees |
| AccountScenarios.HoldThenDebitHold | src/test/java/com/lekha/account/AccountTest.java:71-94 | holding 750 of 1000 reports 250 available and 750 held; debiting 525 from the hold leaves available alone and 225 in the hold and the hold total |
| AccountScenarios.MultipleHoldsDebitAndRelease | src/test/java/com/lekha/account/AccountTest.java:96-139 | with holds of 750 and 75, a 525 debit from the first leaves the second at 75, and releasing the first returns 225, leaving 400 available and 75 held |
| AccountScenarios.TransactionalCreditThenRelease | src/test/java/com/lekha/account/AccountTest.java:141-160 | a 563 transactional credit on a liability lands in the transaction hold; releasing it moves 563 to available, reports the released hold at a zero balance and deletes the hold |
| AccountScenarios.TransactionalDebitWithoutHold | src/test/java/com/lekha/account/AccountTest.java:162-176 | with no transaction hold a 563 transactional debit comes out of available (437 left) and creates no hold |
| AccountScenarios.WithTransactionHold | src/test/java/com/lekha/account/AccountTest.java:178-188 | crediting 1000 and then 750 transactionally yields a valid account with 1000 available and a 750 transaction hold |
| AccountScenarios.TransactionalDebitCoveredByHold | src/test/java/com/lekha/account/AccountTest.java:178-197 | a 350 transactional debit against a 750 transaction hold comes out of the hold only, leaving 1000 available and 400 held |
| AccountScenarios.TransactionalDebitBeyondHold | src/test/java/com/lekha/account/AccountTest.java:199-220 | an 853 transactional debit against a 750 transaction hold empties and deletes the hold and takes 103 from available, leaving 897 |
| LegacyHoldBalances.Create | src/main/java/com/lekha/accounts/HoldBalanceState.java:38-43 | fails when the hold exists; otherwise a zero hold already marked for flushing |
| LegacyHoldBalances.GetExisting | src/main/java/com/lekha/accounts/HoldBalanceState.java:49-52 | the stored hold balance, or a not-present failure |
| LegacyHoldBalances.AddAvailable | src/main/java/com/lekha/accounts/HoldBalanceState.java:59-61 | succeeds exactly on a matching currency; the hold grows by the amount |
| LegacyHoldBalances.SubtractAvailable | src/main/java/com/lekha/accounts/HoldBalanceState.java:63-70 | succeeds exactly when the hold covers the amount; the hold shrinks by it |
| LegacyHoldBalances.Written | src/main/java/com/lekha/accounts/HoldBalanceState.java:90-103 | an unmarked view writes nothing; a marked zero hold is deleted, a marked non-zero one stored |
| LegacyHoldBalances.Flush | src/main/java/com/lekha/accounts/HoldBalanceState.java:90-103 | fails exactly when a pending change is flushed from a shared context |
| LegacyHoldBalances.WrittenTouchesOnlyItsHold | src/main/java/com/lekha/accounts/HoldBalanceState.java:90-103 | flushing one hold leaves every other hold as it was |
| LegacyHoldBalances.CreateThenCloseWritesNothing | src/main/java/com/lekha/accounts/HoldBalanceState.java:38-43 | a new hold closed at zero leaves no record behind |
| LegacyAccounts.Init | src/main/java/com/lekha/accounts/Account.java:58-69 | first use stores options and zero balances; afterwards nothing changes and the current balances are returned |
| LegacyAccounts.GetSummary | src/main/java/com/lekha/accounts/Account.java:138-144 | the same summary handler in the oldest generation, also stated by AccountBalances.StoredSummary |
| LegacyAccounts.Debit | src/main/java/com/lekha/accounts/Account.java:71-108 | on types whose debits do not decrease the balance, available grows; otherwise a named hold and the aggregate hold give the amount, or available does |
| LegacyAccounts.DebitAvailable | src/main/java/com/lekha/accounts/Account.java:89-94 | the checked subtraction from, or addition to, available; nothing changes on failure |
| LegacyAccounts.DebitFromHold | src/main/java/com/lekha/accounts/Account.java:81-88 | succeeds exactly when the hold and the aggregate hold cover the amount; both shrink by it and the result carries the hold's new balance |
| LegacyAccounts.Credit | src/main/java/com/lekha/accounts/Account.java:110-136 | succeeds exactly when the account exists, the currency matches and, where credits decrease the balance, available covers it; available moves in the type's direction |
| LegacyAccounts.Hold | src/main/java/com/lekha/accounts/Account.java:146-179 | refused on types whose debits do not decrease the balance; otherwise the amount moves from available to hold and a hold of that amount is stored under the new id |
| LegacyAccounts.StoreNewHold | src/main/java/com/lekha/accounts/Account.java:160-177 | a colliding id fails after the balances have already moved; otherwise the new hold takes the amount |
| LegacyAccounts.ReleaseHold | src/main/java/com/lekha/accounts/Account.java:181-208 | an absent hold is an error; a non-positive one fails; otherwise its whole balance returns to available, the hold is deleted, and the summary names the released hold |
| LegacyAccounts.ReleaseWholeHold | src/main/java/com/lekha/accounts/Account.java:187-205 | the checked return of a hold's whole balance to available |
| LegacyAccounts.ReleaseHoldAsWritten | src/main/java/com/lekha/accounts/Account.java:181-208 | the handler as written: same state change and outcome as ReleaseHold, but the summary carries the account id in the hold-id field |
| LegacyAccounts.GetHoldSummary | src/main/java/com/lekha/accounts/Account.java:210-216 | the hold's balance under its id, or hold not present |
| LegacyAccountInvariant.ValidBalancesNonNegative | src/main/java/com/lekha/accounts/Account.java:71-208 | on a valid account both balances are non-negative and no hold exceeds the aggregate hold |
| LegacyAccountInvariant.InitIdempotent | src/main/java/com/lekha/accounts/Account.java:58-69 | init keeps the invariant and succeeds; a second init changes nothing |
| LegacyAccountInvariant.DebitKeepsValid | src/main/java/com/lekha/accounts/Account.java:71-108 | a debit of a non-negative amount, with or without a hold, keeps the invariant and changes nothing when it fails |
| LegacyAccountInvariant.CreditKeepsValid | src/main/java/com/lekha/accounts/Account.java:110-136 | a credit of a non-negative amount keeps the invariant |
| LegacyAccountInvariant.HoldKeepsValid | src/main/java/com/lekha/accounts/Account.java:146-179 | a hold under an unused id keeps the invariant and changes nothing when it fails |
| LegacyAccountInvariant.ReleaseHoldKeepsValid | src/main/java/com/lekha/accounts/Account.java:181-208 | releasing keeps the invariant, and releasing an existing hold always succeeds |
| LegacyAccountInvariant.HoldCollisionBreaksHoldTotal | src/main/java/com/lekha/accounts/Account.java:158-162 | a hold under an id already in use fails with HoldAlreadyPresent after the balances have moved: the holds are unchanged, available has shrunk and the aggregate hold grown by the amount, and the account is no longer valid |
| LegacyAccountInvariant.HoldThenRelease | src/main/java/com/lekha/accounts/Account.java:146-208 | releasing a hold just placed returns its amount and restores the account |
| LegacyAccountInvariant.DebitLeavesOtherHolds | src/main/java/com/lekha/accounts/Account.java:81-88 | a debit from one hold leaves every other hold untouched |
| LegacyAccountInvariant.ReleaseSummaryNamesAccount | src/main/java/com/lekha/accounts/Account.java:195-196 | as written, the release summary's hold id is the account id, not the released hold's id, which the corrected handler reports |
| Operations.Reversed | src/main/java/com/lekha/transfer/AccountOperation.java:42-223 | the reversal stays on the operation's account; the six result-independent operations reverse to their inverse; a release reverses to a hold of exactly the released amount |
| Operations.Inverse | src/main/java/com/lekha/transfer/AccountOperation.java:49-185 | the inverse of a result-independent operation is result-independent, on the same account, for the same amount |
| Operations.ReversedTwice | src/main/java/com/lekha/transfer/AccountOperation.java:49-185 | reversing a debit, credit, hold debit, hold credit or transactional debit or credit twice gives the operation back, whatever the results were |
| Operations.HoldReversalCycle | src/main/java/com/lekha/transfer/AccountOperation.java:81-113 | a hold reversed and reversed again is a hold of the same id for exactly the amount the release reported (likewise for transactional holds) |
| Operations.TypeName | src/main/java/com/lekha/transfer/AccountOperation.java:9-37 | every operation has a non-empty type tag |
| Operations.TypeNameIdentifiesKind | src/main/java/com/lekha/transfer/AccountOperation.java:48-223 | two operations share a type tag exactly when they are of the same kind |
| Sagas.NewSaga | ledger/src/main/java/com/lekha/saga/Saga.java:24-25 | a new saga has no compensations and no pending compensation |
| Sagas.Run | ledger/src/main/java/com/lekha/saga/Saga.java:27-46 | a success appends the compensation bound to its result; a terminal failure appends nothing and raises the flag; any other failure changes nothing |
| Sagas.OnClose | ledger/src/main/java/com/lekha/saga/Saga.java:48-60 | closing runs nothing unless the flag is up, and then every recorded compensation, last recorded first |
| Sagas.MapSeq | ledger/src/main/java/com/lekha/saga/Saga.java:27-32 | the compensations bound to each result, in order |
| Sagas.RecordedCompensations | ledger/src/main/java/com/lekha/saga/Saga.java:27-32 | after successful tasks the saga holds exactly their compensations in order, with the flag down |
| Sagas.CloseAfter | ledger/src/main/java/com/lekha/saga/Saga.java:27-60 | after successes `close` runs nothing; after a following failure it runs every success's compensation, last first, exactly when that failure is terminal |
| Sagas.Compensate | src/main/java/com/lekha/saga/Saga.java:42-47 | every recorded compensation, last recorded first, with the list kept |
| Sagas.LegacyRun | src/main/java/com/lekha/saga/Saga.java:21-40 | a success appends its compensation; a terminal failure compensates at once and leaves the list alone; any other failure does nothing |
| Sagas.LegacyCompensationRepeats | src/main/java/com/lekha/saga/Saga.java:21-47 | the list is never cleared, so a second terminal failure on the same saga replays the same compensations |
| Common.Store | ledger/src/main/java/com/lekha/transfer/Executor.java:44-47 | the key written reads as the new value afterwards, every other key reads as before, and writing what a key already reads as leaves the map unchanged |
| Worlds.Put | ledger/src/main/java/com/lekha/transfer/Executor.java:44-47 | storing an account changes that account only (through Common.Store) |
| Worlds.ExpenseDebitFollowsServiceTable | ledger/src/main/java/com/lekha/transfer/Executor.java:50-55 | the world's debit runs the earlier generation's handler, so a debit of an empty expense account is refused, although the ledger module's table counts expense debits as raising the balance |
| Worlds.BalancesResult | ledger/src/main/java/com/lekha/transfer/Executor.java:50-73 | a debit or credit result exactly when the handler succeeded |
| Worlds.Execute | ledger/src/main/java/com/lekha/transfer/Executor.java:44-161 | the operation's handler runs on the account it names: the result is of the operation's kind and no other account changes |
| Worlds.ValidGet | src/main/java/com/lekha/account/Account.java:85-96 | in a valid world every account, initialised or not, is valid |
| Worlds.ExecuteKeepsValid | ledger/src/main/java/com/lekha/transfer/Executor.java:44-161 | an operation with a non-negative amount keeps every account valid, and a failing one leaves the world exactly as it was |
| Worlds.ReversalRestores | ledger/src/main/java/com/lekha/transfer/Executor.java:31-37 | a debit, credit, hold debit or credit-reversed async debit followed by its reversal succeeds and restores the world |
| Worlds.ReversalRestoresAt | ledger/src/main/java/com/lekha/transfer/Executor.java:31-37 | in a valid world, an operation undoable where it runs succeeds together with its reversal and the world comes back; besides the always-undoable operations this covers a transactional credit onto a transaction-typed hold and a transactional debit that hold covers |
| LedgerExecutor.ExecuteMatching | ledger/src/main/java/com/lekha/transfer/Executor.java:31-37 | every result `Execute` returns can be handed to the operation's `reversed` |
| LedgerExecutor.ExecuteRestores | ledger/src/main/java/com/lekha/transfer/Executor.java:31-161 | `Execute` keeps worlds valid, changes nothing when it fails, and is undone by the reversal of a restorable operation |
| LedgerExecutor.SerialShape | ledger/src/main/java/com/lekha/transfer/Executor.java:14-20 | the serial phase runs a prefix of the operations (all of them without failure), stops at the first failure, records one reversal per success, and raises the compensation flag exactly on a terminal failure |
| LedgerExecutor.SerialTrace | ledger/src/main/java/com/lekha/transfer/Executor.java:14-20 | the serial phase executes a prefix of the plan ending at the first failure, or all of it; the compensation flag rises exactly on a terminal failure |
| LedgerExecutor.SerialRecords | ledger/src/main/java/com/lekha/transfer/Executor.java:31-37 | the serial phase keeps the compensations already recorded and appends, per success, the reversal of that operation |
| LedgerExecutor.RunCompensations | ledger/src/main/java/com/lekha/saga/Saga.java:48-60 | compensations run in the given order, and the first one that fails stops the rest |
| LedgerExecutor.RunCleanups | ledger/src/main/java/com/lekha/transfer/Executor.java:21-28 | every cleanup operation is sent, in plan order, whatever fails |
| LedgerExecutor.ExecutionOrder | ledger/src/main/java/com/lekha/transfer/Executor.java:14-37 | on success the serial operations run in plan order and then every cleanup; after failure k nothing else of the plan runs, the failure surfaces, and after a terminal failure the reversals of operations 0..k-1 run last first |
| LedgerExecutor.CompletesWith | ledger/src/main/java/com/lekha/transfer/Executor.java:14-29 | a plan without cleanups whose serial phase succeeds runs exactly its serial operations and reports no error |
| LedgerExecutor.RunSerial | ledger/src/main/java/com/lekha/transfer/Executor.java:14-20 | the serial fold through the saga; stated by LedgerExecutor.SerialShape, SerialTrace, SerialRecords, SerialSucceeds and SerialFailsAt |
| LedgerExecutor.ExecutePlanWith | ledger/src/main/java/com/lekha/transfer/Executor.java:14-29 | the whole plan for a given step; stated by LedgerExecutor.ExecutionOrder, CompletesWith and RollbackWith |
| LedgerExecutor.ExecutePlan | ledger/src/main/java/com/lekha/transfer/Executor.java:14-29 | the whole plan with the real step; stated by LedgerExecutor.Rollback, RollbackUndoable and CleanupsLocal |
| LedgerExecutor.RestorableRunIsUndoable | ledger/src/main/java/com/lekha/transfer/Executor.java:14-37 | a plan whose operations are each undone by their reversal in any world is undoable along whatever run it takes |
| LedgerExecutor.SerialSucceeds | ledger/src/main/java/com/lekha/transfer/Executor.java:14-20 | when each serial operation succeeds in turn through a given sequence of worlds, the serial phase reports no failure and ends in the last of them |
| LedgerExecutor.SerialFailsAt | ledger/src/main/java/com/lekha/transfer/Executor.java:14-20 | when operations 0..k-1 succeed through given worlds, each undoable where it ran, and operation k fails, the run is undoable and the serial phase reports operation k's error |
| LedgerExecutor.CleanupsFrame | ledger/src/main/java/com/lekha/transfer/Executor.java:21-28 | the cleanups leave every account they do not name untouched |
| LedgerExecutor.CleanupsSeeStart | ledger/src/main/java/com/lekha/transfer/Executor.java:21-28 | with one cleanup per account, a later cleanup gets the same result and leaves its account the same as it would before the first cleanup ran |
| LedgerExecutor.CleanupsOwn | ledger/src/main/java/com/lekha/transfer/Executor.java:21-28 | with one cleanup per account, each named account ends as its cleanup alone would leave it |
| LedgerExecutor.CleanupsFailure | ledger/src/main/java/com/lekha/transfer/Executor.java:21-28 | with one cleanup per account, the cleanups report a failure exactly when one of them fails on its own |
| LedgerExecutor.CleanupsLocal | ledger/src/main/java/com/lekha/transfer/Executor.java:21-28 | cleanups on distinct accounts do not interfere: each account ends as its own cleanup leaves it, the others are untouched, and a failure is reported exactly when one cleanup fails alone |
| LedgerExecutor.RollbackUndoable | ledger/src/main/java/com/lekha/transfer/Executor.java:14-37 | from a valid world and along an undoable run, a terminal serial failure leaves every account as before the plan, and that failure surfaces |
| LedgerExecutor.SerialUndo | ledger/src/main/java/com/lekha/saga/Saga.java:48-60 | when every success of a failed serial phase is undone by its reversal in the world it ran in, replaying the recorded reversals, last first, brings the world back to where the phase started |
| LedgerExecutor.RollbackWith | ledger/src/main/java/com/lekha/transfer/Executor.java:14-20 | for any step that behaves as `Execute` does and a run undoable step by step, a terminal serial failure leaves the world as it was and surfaces |
| LedgerExecutor.Rollback | ledger/src/main/java/com/lekha/transfer/Executor.java:14-37 | with restorable operations, a terminal failure in the serial phase leaves every account exactly as before the plan, and that failure surfaces |
| ServiceExecutor.SameAsScoped | src/main/java/com/lekha/transfer/Executor.java:11-24 | the earlier executor runs the same serial fold and the same replay of reversals after a terminal failure; only a failing compensation's error surfaces in place of the original |
| ServiceExecutor.ScopedAgrees | src/main/java/com/lekha/transfer/Executor.java:11-24 | run by run, the earlier executor's outcome is the scoped executor's serial run followed by its replay on close |
| ServiceExecutor.RunOperations | src/main/java/com/lekha/transfer/Executor.java:11-24 | the earlier executor's fold with its immediately compensating saga; stated by ServiceExecutor.ScopedAgrees and SameAsScoped |
| ServiceExecutor.ExecuteOperations | src/main/java/com/lekha/transfer/Executor.java:11-16 | a plan through a fresh saga; stated by ServiceExecutor.Rollback |
| ServiceExecutor.RollbackWith | src/main/java/com/lekha/transfer/Executor.java:11-24 | for any step that behaves as `Execute` does and a run undoable step by step, a terminal failure leaves the world as it was and surfaces |
| ServiceExecutor.Rollback | src/main/java/com/lekha/transfer/Executor.java:11-24 | with restorable operations, a terminal failure leaves every account as it was, and that failure surfaces |
| PlanShapes.FlatPairs | ledger/src/main/java/com/lekha/transfer/Planner.java:17-28 | two elements per input, in input order: the first and second image of each |
| PlanShapes.FirstIndex | ledger/src/main/java/com/lekha/transfer/Planner.java:50-53 | the position of the first occurrence of an element |
| PlanShapes.FirstSeenIsOrderedSet | ledger/src/main/java/com/lekha/transfer/Planner.java:50-67 | the insertion-ordered set holds exactly the added ids, each once, ordered by first addition |
| LedgerPlanners.NonTransactionalPlan | ledger/src/main/java/com/lekha/transfer/Planner.java:14-44 | two serial operations per instruction in instruction order, the debit side (from the named hold, else an async debit) then a credit of the same amount on the destination; no cleanups |
| LedgerPlanners.DebitOperation | ledger/src/main/java/com/lekha/transfer/Planner.java:31-44 | a hold debit when the instruction names a hold, else an async debit of the source; its place in the plans is stated by LedgerPlanners.NonTransactionalPlan and TransactionalSerialOperations |
| LedgerPlanners.TransactionalPlan | ledger/src/main/java/com/lekha/transfer/Planner.java:46-74 | stated by LedgerPlanners.TransactionalOperationsShape, TransactionalSerialOperations and TransactionalCleanups |
| LedgerPlanners.SeenMeansEarlier | ledger/src/main/java/com/lekha/transfer/Planner.java:51-63 | the source is in the set of destinations seen so far exactly when an earlier instruction credited it |
| LedgerPlanners.TransactionalOperationsShape | ledger/src/main/java/com/lekha/transfer/Planner.java:46-64 | at each instruction the planner emits the debit side stated without the set, then the transactional credit |
| LedgerPlanners.TransactionalSerialOperations | ledger/src/main/java/com/lekha/transfer/Planner.java:46-64 | two operations per instruction; a transactional credit on every destination; on the source a transactional debit exactly when no hold is named and an earlier instruction credited it; a named hold always wins; the first instruction never debits transactionally |
| LedgerPlanners.TransactionalCleanups | ledger/src/main/java/com/lekha/transfer/Planner.java:66-73 | one release of the transaction's hold per distinct destination, each once, in the order destinations first appear |
| LedgerPlanners.AccountIds | ledger/src/main/java/com/lekha/transfer/Planner.java:66-71 | the account each operation names, in order |
| ServicePlanners.NonTransactionalPlan | src/main/java/com/lekha/transfer/Planner.java:12-37 | two operations per instruction in order: a debit (from the named hold, else plain) then a credit of the same amount on the destination |
| ServicePlanners.DebitOperation | src/main/java/com/lekha/transfer/Planner.java:27-37 | a hold debit when the instruction names a hold, else a plain debit; its place in the plan is stated by ServicePlanners.NonTransactionalPlan |
| ServicePlanners.TransactionalPlan | src/main/java/com/lekha/transfer/Planner.java:40-48 | this generation's transactional planner plans no operations at all |
| LegacyPlanner.DebitSide | src/main/java/com/lekha/transactions/Planner.java:25-35 | a debit from the named hold when the instruction names one, otherwise a plain debit of the source, for the instruction's amount |
| LegacyPlanner.Plan | src/main/java/com/lekha/transactions/Planner.java:13-23 | two operations per instruction in instruction order: the debit side, then a credit of the same amount on the destination |
| LegacyTransfer.Put | src/main/java/com/lekha/transactions/Transfer.java:57-58 | an account call changes only the account it is addressed to (through Common.Store) |
| LegacyTransfer.ExecuteOperation | src/main/java/com/lekha/transactions/Transfer.java:55-107 | each operation yields the result record of its own kind, and no account other than the one it names changes |
| LegacyTransfer.ExecuteKeepsValid | src/main/java/com/lekha/transactions/Transfer.java:55-107 | an operation with a non-negative amount (and a hold under an unused id) keeps every account's balances valid; a failed one changes nothing |
| LegacyTransfer.RunCompensations | src/main/java/com/lekha/saga/Saga.java:42-47 | compensations run in the order given, and the first failure stops the rest |
| LegacyTransfer.RunForward | src/main/java/com/lekha/transactions/Transfer.java:40-45 | operations run in order until the first failure; all of them ran exactly when none failed |
| LegacyTransfer.Reversals | src/main/java/com/lekha/transactions/Transfer.java:47-53 | one reversal per successful result |
| LegacyTransfer.ReversalsAt | src/main/java/com/lekha/transactions/Transfer.java:50-52 | the reversal recorded for operation i is bound to the result operation i produced |
| LegacyTransfer.UndoOrder | src/main/java/com/lekha/saga/Saga.java:42-47 | the recorded reversals are replayed last first |
| LegacyTransfer.RunMatchesForward | src/main/java/com/lekha/transactions/Transfer.java:40-53 | the saga run agrees with the reference: no failure means every operation ran once; a terminal failure replays every recorded reversal, last first, until one fails, and the error that surfaces is the compensation's if one failed, else the operation's; a non-terminal failure replays nothing |
| LegacyTransfer.FreshFailure | src/main/java/com/lekha/saga/Saga.java:21-47 | after a failure, a run through a fresh saga executes the operations up to the failing one and then, only for a terminal failure, the reversals of this run's successes last first; a failing compensation's error replaces the operation's |
| LegacyTransfer.FreshRunOutcome | src/main/java/com/lekha/saga/Saga.java:21-47 | starting from a fresh saga, a terminal failure of operation k replays exactly the reversals of operations k-1 down to 0, each bound to its own result |
| LegacyTransfer.BulkMoveOutcome | src/main/java/com/lekha/transactions/Transfer.java:26-45 | `move`/`bulkMove` run the plan of the instructions through a fresh saga with the outcome above |
| LegacyTransfer.RunOperations | src/main/java/com/lekha/transactions/Transfer.java:40-53 | the fold through the saga; stated by LegacyTransfer.RunMatchesForward, FreshFailure and FreshRunOutcome |
| LegacyTransfer.Move | src/main/java/com/lekha/transactions/Transfer.java:26-31 | a bulk move of the one instruction; stated by LegacyTransfer.BulkMoveOutcome |
| LegacyTransfer.BulkMove | src/main/java/com/lekha/transactions/Transfer.java:33-38 | the plan through a fresh saga; stated by LegacyTransfer.BulkMoveOutcome |
| LedgerTransfer.PlanRestorable | ledger/src/main/java/com/lekha/transfer/Transfer.java:30-42 | with non-negative amounts and an async debit undone by a credit, every operation of a bulk move's plan is exactly undone by its reversal |
| LedgerTransfer.BulkMoveRollsBack | ledger/src/main/java/com/lekha/transfer/Transfer.java:30-42 | a bulk move whose operations fail terminally part-way leaves every account as it was, and the failure surfaces |
| LedgerTransfer.BulkMoveCompletes | ledger/src/main/java/com/lekha/transfer/Transfer.java:30-42 | a bulk move whose operations all succeed runs exactly its planned operations in plan order and reports no error |
| LedgerTransfer.MoveRollsBack | ledger/src/main/java/com/lekha/transfer/Transfer.java:25-28 | a single move rolls back under the same conditions as a bulk move of that one instruction |
| LedgerTransfer.Move | ledger/src/main/java/com/lekha/transfer/Transfer.java:25-28 | a bulk move of the one instruction; stated by LedgerTransfer.MoveRollsBack |
| LedgerTransfer.BulkMove | ledger/src/main/java/com/lekha/transfer/Transfer.java:30-42 | stated by LedgerTransfer.BulkMoveRollsBack and BulkMoveCompletes, and with the test numbers by TransferScenarios.PlainChain and PlainRollback |
| LedgerTransfer.TransactionalBulkMove | ledger/src/main/java/com/lekha/transfer/Transfer.java:44-57 | stated by LedgerTransfer.TransactionalBulkMoveRollsBack, TransactionalBulkMoveCompletes and TransactionalBulkMoveSettles, and with the test numbers by TransferScenarios.TransactionalChain and TransactionalRollback |
| LedgerTransfer.TransactionalBulkMoveRollsBack | ledger/src/main/java/com/lekha/transfer/Transfer.java:44-57 | from a valid world, along a run whose every success is undone by its reversal where it ran (for a transactional debit: covered by the transaction hold), a terminal serial failure leaves every account as it was and surfaces |
| LedgerTransfer.TransactionalBulkMoveCompletes | ledger/src/main/java/com/lekha/transfer/Transfer.java:44-57 | when the serial phase succeeds, the move runs the serial operations and then one release per destination; each destination ends as releasing its transaction hold leaves it, every other account as the serial phase left it, and an error is reported exactly when a release fails |
| LedgerTransfer.TransactionalBulkMoveSettles | ledger/src/main/java/com/lekha/transfer/Transfer.java:44-57 | after a completed transactional move, a destination whose transaction hold is of the transaction type has that hold moved into available: the hold is gone, available grew and the total held shrank by its amount |
| ServiceTransfer.MoveIsBulkMove | src/main/java/com/lekha/transfer/Transfer.java:23-37 | `move` behaves exactly as `bulkMove` of the one instruction |
| ServiceTransfer.PlanRestorable | src/main/java/com/lekha/transfer/Transfer.java:31-37 | with non-negative amounts, every planned operation is exactly undone by its reversal |
| ServiceTransfer.BulkMoveRollsBack | src/main/java/com/lekha/transfer/Transfer.java:31-37 | a bulk move whose operations fail terminally part-way leaves every account as it was, and the failure surfaces |
| ServiceTransfer.Move | src/main/java/com/lekha/transfer/Transfer.java:23-29 | stated by ServiceTransfer.MoveIsBulkMove |
| ServiceTransfer.BulkMove | src/main/java/com/lekha/transfer/Transfer.java:31-37 | stated by ServiceTransfer.BulkMoveRollsBack |
| TransferScenarios.TransactionalChain | src/test/java/com/lekha/transfer/TransferTest.java:83-128 | run transactionally on four empty USD accounts, the chain 1000, 750, 50, 15 reports no error and leaves 985, 250, 700 and 35 available with nothing on hold |
| TransferScenarios.TransactionalRollback | src/test/java/com/lekha/transfer/TransferTest.java:130-180 | transactionally, the fourth leg (800 from liability 2, whose transaction hold has 570) fails with an insufficient balance, and all four accounts are back at zero with nothing on hold |
| TransferScenarios.PlainChain | src/test/java/com/lekha/transfer/TransferTest.java:83-128 | the same chain run non-transactionally ends at the same balances with no error |
| TransferScenarios.PlainRollback | src/test/java/com/lekha/transfer/TransferTest.java:130-180 | non-transactionally the fourth debit (800 of 570 available) fails with an insufficient balance and every account is back at zero, given that an async debit is reversed by a credit |
| TransferScenarios.OverdrawStrandedOnRollback | src/main/java/com/lekha/account/Account.java:332-471 | a liability with 100 available that receives 50 and pays out 120 transactionally, then has both compensated last first, ends with 30 available and 70 on the transaction hold, not where it started |
| Batchers.StateKey | ledger/src/main/java/com/lekha/utils/Batcher.java:93-95 | the state key is the batcher prefix followed by the batcher's name |
| Batchers.StateKeyInjective | ledger/src/main/java/com/lekha/utils/Batcher.java:93-95 | batchers with different names never share a state key |
| Batchers.NewAppender | ledger/src/main/java/com/lekha/utils/Batcher.java:51-66 | an existing batch is taken over and nothing is scheduled; otherwise one delayed execution is scheduled and an empty batch tagged with its invocation id is started |
| Batchers.AddToBatch | ledger/src/main/java/com/lekha/utils/Batcher.java:68-76 | the value is appended and the batch stored under its key, other keys untouched; an immediate execution is scheduled exactly when the batch reaches the maximum size |
| Batchers.ExecuteBatch | ledger/src/main/java/com/lekha/utils/Batcher.java:80-90 | fails exactly when no batch is stored; otherwise hands over the stored items and clears only that batch |
| Batchers.AddAllThenExecute | ledger/src/main/java/com/lekha/utils/Batcher.java:68-90 | after a series of additions, executing the batch hands over the starting items followed by every added value in order, and every request scheduled meanwhile is an immediate execution of this batch |
| Batchers.ExecutionsIndependent | ledger/src/main/java/com/lekha/utils/Batcher.java:80-95 | executing one batch does not change what executing another would hand over |

## Left out

- Restate plumbing: the state get/set/clear calls, `ctx.run` journaling, durable futures, the account clients' RPC, and where invocation ids and random hold ids come from. State is a value or a map, an RPC is a function call, and ids are parameters.
- Ledger posting (`ledger/src/main/java/com/lekha/account/LedgerRecorder.java`, both `Ledger.java` files, and the `record*InLedger` helpers of the oldest `Account.java`). These are fire-and-forget sends to empty handlers and change no account.
- The concurrency of the ledger executor's cleanup phase. The cleanups run one after another, all of them are sent, and the first failure in plan order surfaces.
- The batcher's scheduler and `attach().await()`. A scheduling request is recorded as a `Scheduled` value, and the scheduled execution is `Batchers.ExecuteBatch`, called separately.
- The clock, the load-test tooling, `AppMain` and the build files. They hold no ledger logic.
- The reversal of the ledger planner's `AsyncDebit` operation. Its definition is not part of this model, so it is a parameter, and its result is taken as a debit result. The rollback lemmas for a ledger bulk move require it to be a credit of the same amount on the same account.
- The reversals of the oldest `transactions` operations. `AccountOperation.java` of that package is not part of this model, so the reversal is a parameter of `LegacyTransfer`.
- The oldest transfer service calls account handlers whose signatures differ from the oldest `Account.java` (a debit carrying a hold id, a hold carrying the caller's hold id). `LegacyTransfer.ExecuteOperation` maps them onto the modelled handlers: a debit with a named hold, and a hold stored under the operation's id.
- `com.lekha.utils.Saga`, imported by the ledger executor, is not part of this model. `ledger/src/main/java/com/lekha/saga/Saga.java`, whose try-with-resources use matches, stands in for it.
- The service executor calls a `run` overload of the earlier saga whose compensation takes the result. That saga only declares a result-free compensation. The model binds the reversal to the result, as the executor intends.
- The service planner names its operations differently from `src/main/java/com/lekha/transfer/AccountOperation.java` (for instance `DebitHoldOperation`). They are mapped to the variants of that file with the same meaning.
- Worlds.Execute: the ledger generation's `Account` class (`ledger/src/main/java/com/lekha/account/Account.java`, imported at `ledger/src/main/java/com/lekha/transfer/Executor.java:3`) is not part of this model. The ledger world runs the `src/main/java/com/lekha/account/Account.java` handlers (module Accounts), with their polarity table `AccountTypes.DebitsDecreaseBalance`. The ledger module's own table, `AccountTypes.LedgerDebitsDecreaseBalance` (`ledger/src/main/java/com/lekha/account/AccountType.java:4-8`), is modelled but drives no handler. The two tables differ on equity, revenue and expense accounts. On those types the ledger world follows the earlier polarity. For example, a debit of an empty expense account fails in the model, whereas under the ledger table it would raise the balance (Worlds.ExpenseDebitFollowsServiceTable). The two tables agree exactly on asset and liability accounts (AccountTypes.TablesAgreeOnlyOnAssetAndLiability), and the transfer scenarios use only those two types. The ledger executor, planner and transfer lemmas are proved for the world as modelled, that is, with the earlier table.
- `AccountType` and `AccountOptionsState` of the oldest `accounts` package are not part of this model. The oldest accounts use the `src/.../account` polarity table and the ledger options state.
- `AccountBalancesState` of the `src/.../account` package is not part of this model. It is modelled after the `accounts` package's class, with `addHoldBalance` adding to the hold total only.
- The three-argument `HoldBalanceState.getExisting` called at `src/main/java/com/lekha/account/Account.java:226` is not part of this model. It is taken as the two-argument lookup followed by `ensureHoldType`.
- The service `TransactionalPlanner` plans nothing, so a transactional bulk move exists only in the ledger generation.
- The transfer test scenarios with a pre-placed user hold (`src/test/java/com/lekha/transfer/TransferTest.java:182-236`) and the partial fill (`src/test/java/com/lekha/transfer/TransferTest.java:238-302`) are not restated with their numbers. The chain and the failing run are, in both modes (module TransferScenarios). The general forms proved are: a non-transactional bulk move rolls back when its amounts are non-negative and an async debit is reversed by a credit (LedgerTransfer.BulkMoveRollsBack); a transactional one rolls back along an undoable run (LedgerTransfer.TransactionalBulkMoveRollsBack); a completed run executes exactly the plan (LedgerTransfer.BulkMoveCompletes, LedgerTransfer.TransactionalBulkMoveCompletes). The partial fill debits a user hold (`DebitHold`) rather than draining; that a hold debit is undone by a hold credit is AccountInvariant.DebitHoldThenCreditHold. The account test scenarios of the service generation are restated with their numbers (module AccountScenarios); the oldest generation's account tests are not, since the same handlers are covered by its general lemmas.
- AccountInvariant.DebitKeepsValid requires a non-negative amount, because the handler never checks the sign.
- AccountInvariant.CreditKeepsValid requires a non-negative amount, for the same reason.
- AccountInvariant.HoldKeepsValid requires a non-negative amount, for the same reason.
- AccountInvariant.CreditHoldKeepsValid requires a non-negative amount, for the same reason.
- AccountInvariant.TransactionalDebitKeepsValid requires a non-negative amount, for the same reason.
- AccountInvariant.TransactionalCreditKeepsValid requires a non-negative amount, for the same reason.
- LegacyAccountInvariant.DebitKeepsValid requires a non-negative amount, because the handler never checks the sign.
- LegacyAccountInvariant.CreditKeepsValid requires a non-negative amount, for the same reason.
- LegacyAccountInvariant.HoldKeepsValid requires a non-negative amount and a hold id the account does not use yet. The handler draws a random id. On a collision it moves the balances before creating the hold record, and the record's creation then fails with HoldAlreadyPresent. The existing hold is left unchanged, but the moved balances are still written. The aggregate hold then exceeds the sum of the holds, so the invariant breaks (LegacyAccountInvariant.HoldCollisionBreaksHoldTotal).
- LegacyTransfer.ExecuteKeepsValid inherits the same two restrictions.
- LedgerExecutor.Rollback covers only plans whose every operation is exactly undone by its reversal. A release whose reversal re-holds a different type is not covered.
- ServiceExecutor.Rollback has the same restriction.
- LedgerTransfer.TransactionalBulkMove: rollback is proved only along an undoable run (LedgerTransfer.TransactionalBulkMoveRollsBack), where every transactional debit that succeeds is covered by the transaction hold it drains. Otherwise rollback does not restore the accounts. A transactional debit that also draws on available (`src/main/java/com/lekha/account/Account.java:332-432`) is reversed by a transactional credit into the hold (`src/main/java/com/lekha/account/Account.java:448-471`), through the compensations of `ledger/src/main/java/com/lekha/transfer/Executor.java:14-37`. The overdraw is left stranded on the hold (AccountInvariant.TransactionalDebitBeyondHoldStrands). An example is the plan asset to liability 1 for 50, liability 1 (starting with 100 available) to liability 2 for 120, then liability 2 to liability 3 for 1000. After the third leg fails, liability 1 ends with 30 available and 70 on the transaction hold (TransferScenarios.OverdrawStrandedOnRollback).
- LedgerTransfer.BulkMoveRollsBack requires non-negative amounts and an async-debit reversal that credits the same amount back.
- ServiceTransfer.BulkMoveRollsBack requires non-negative amounts.
- LegacyTransfer.RunMatchesForward describes the rollback of the oldest transfer in terms of the reversals it replays. That those reversals restore the accounts is not proved, because the reversal is a parameter.

## Findings

| source | as written | input that shows it | evidently intended | confidence | as-written member | corrected member |
|---|---|---|---|---|---|---|
| src/main/java/com/lekha/accounts/Account.java:195-196 | the summary of a released hold carries the account id where the hold id belongs | releasing hold `h` of account `acc` reports a hold summary with id `acc` (LegacyAccountInvariant.ReleaseSummaryNamesAccount) | the summary names the released hold, `h`, with a zero balance | not executed | LegacyAccounts.ReleaseHoldAsWritten | LegacyAccounts.ReleaseHold |
