# Money transfer between two accounts — a Dafny model

This project models the core of a small account service: the money-transfer
operation and the balance guard on each account.

- An **account** (`Accounts.Account`) has an identifier and a balance. `Debit`
  refuses an amount larger than the balance and otherwise subtracts it.
  `Credit` always adds. Money is an integer count of minor currency units
  (cents), not a binary floating-point number.
- The **transfer service** (`TransferServices.TransferService`) runs checks
  in a fixed order. First the amount must be positive. Then the source
  account must exist, then the target account. Next it takes the two
  accounts' locks, smaller identifier first. Under the locks it debits the
  source, credits the target, saves both accounts and notifies both holders.
  Finally it appends one ledger entry `(from, to, amount)`.
- The **account store** is modelled by two maps. The first, a constant,
  maps each identifier to its one managed `Account` object, so a self-transfer loads
  the same object twice, as the store's entity cache does. The second holds
  the balance last saved for each identifier. The ledger, the notifications,
  the store calls and the locks taken are sequences.

`TransferSpec` states the whole operation as a function on values. Its input
and output are a `State`: balances, store calls, locks, notifications and
ledger. Two class methods, `TransferService.Transfer` and
`TransferService.PerformTransfer`, are proved to behave exactly as the
functions of the same names in `TransferSpec`. The other methods state their
effect on the fields directly. The lemmas in `TransferSpec` state what the
operation guarantees:

- the outcome for every input, in the fixed order of the checks;
- no side effect on any failure path;
- the exact new balances on success, with every other account unchanged;
- conservation of the total over the whole store;
- no balance ever goes negative, even over any sequence of transfers;
- exactly one ledger entry per success;
- the two notifications, in order;
- a lock order that does not depend on the direction of the transfer, so
  two transfers can never wait for each other in a circle.

Files: `wrappers.dfy` (Option), `account.dfy` (module `Accounts`),
`transfer_spec.dfy` (module `TransferSpec`), `transfer_service.dfy` (module
`TransferServices`).

## Model

| member | source | states |
|---|---|---|
| Accounts.DebitBalance | src/main/java/com/dws/challenge/entity/Account.java:21-26 | a debit succeeds exactly when the amount is at most the balance (equality allowed); on success the balance drops by exactly the amount; a non-negative balance stays non-negative |
| Accounts.CreditBalance | src/main/java/com/dws/challenge/entity/Account.java:28-30 | the definition of a credit: it never fails, and the result less the amount is the old balance; `Accounts.CreditUndoesDebit` is the lemma that gives it meaning as the inverse of a debit |
| Accounts.CreditUndoesDebit | src/main/java/com/dws/challenge/entity/Account.java:21-30 | a covered debit followed by a credit of the same amount gives back the original balance (credit is the inverse of debit) |
| Accounts.Account.constructor | src/main/java/com/dws/challenge/entity/Account.java:10-19 | a new account holds exactly the given identifier and balance |
| Accounts.Account.Debit | src/main/java/com/dws/challenge/entity/Account.java:21-26 | fails (the "Insufficient balance" error) iff balance < amount, leaving the balance unchanged; otherwise balance' == balance - amount; non-negativity is preserved; only `balance` may change, the identifier is a constant |
| Accounts.Account.Credit | src/main/java/com/dws/challenge/entity/Account.java:28-30 | always succeeds with balance' == balance + amount; only `balance` may change |
| TransferSpec.LockOrder | src/main/java/com/dws/challenge/service/impl/TransferService.java:40-53 | the lock pair is the two transfer endpoints, smaller first |
| TransferSpec.PerformTransfer | src/main/java/com/dws/challenge/service/impl/TransferService.java:59-73 | the locked part succeeds exactly when the source balance covers the amount; on success the same accounts are kept, the two endpoints' sum is conserved, every other account is unchanged, and locks and ledger are untouched |
| TransferSpec.SaveTransferDetails | src/main/java/com/dws/challenge/service/impl/TransferService.java:75-82 | the ledger keeps every old entry and gains exactly one, the record (from, to, amount); balances, store calls, locks and notifications are untouched |
| TransferSpec.Locked | src/main/java/com/dws/challenge/service/impl/TransferService.java:35-53 | the state once both lookups are logged and both locks taken in `LockOrder`; balances, notifications and ledger untouched |
| TransferSpec.Transfer | src/main/java/com/dws/challenge/service/impl/TransferService.java:29-57 | whatever the outcome, the set of accounts is unchanged and the ledger keeps its old entries and grows by at most one; the outcome, side-effect and conservation lemmas below are stated about this function |
| TransferSpec.LockOrderIndependentOfDirection | src/main/java/com/dws/challenge/service/impl/TransferService.java:40-53 | LockOrder(a, b) == LockOrder(b, a) == (min, max): the order does not depend on direction |
| TransferSpec.WaitChainAscends | src/main/java/com/dws/challenge/service/impl/TransferService.java:40-53 | along a chain of transfers each waiting for the next one's first lock, the first lock held rises strictly at every step |
| TransferSpec.NoCircularWait | src/main/java/com/dws/challenge/service/impl/TransferService.java:40-53 | transfers between distinct accounts that lock in this order can never form a circular wait, which is the deadlock the comment at line 40 guards against |
| TransferSpec.TransferOutcome | src/main/java/com/dws/challenge/service/impl/TransferService.java:30-61 | the outcome, both directions of each iff: InvalidAmount iff amount <= 0; AccountNotFound iff positive and an endpoint is missing; InsufficientBalance iff both exist and the source balance < amount; Ok otherwise |
| TransferSpec.InvalidAmountHasNoEffect | src/main/java/com/dws/challenge/service/impl/TransferService.java:31-33 | a non-positive amount returns InvalidAmount with the whole state unchanged: no store call, lock, notification or ledger entry |
| TransferSpec.AccountNotFoundHasNoEffect | src/main/java/com/dws/challenge/service/impl/TransferService.java:35-38 | a missing endpoint returns AccountNotFound after only the lookups made so far (source first); balances, locks, notifications and ledger unchanged, no save |
| TransferSpec.InsufficientBalanceHasNoEffect | src/main/java/com/dws/challenge/service/impl/TransferService.java:40-61 | an uncovered debit returns InsufficientBalance after the two lookups and the two locks; balances, notifications and ledger unchanged, no save |
| TransferSpec.SuccessfulTransfer | src/main/java/com/dws/challenge/service/impl/TransferService.java:30-82 | distinct endpoints, success: from' == from - amount, to' == to + amount, the pair's sum is conserved, every other account unchanged, same accounts; calls are find, find, save, save; locks in LockOrder; the two notifications in order; exactly one ledger entry (from, to, amount) |
| TransferSpec.SelfTransfer | src/main/java/com/dws/challenge/service/impl/TransferService.java:40-65 | from == to is not special-cased: the same account is debited then credited, so balances are unchanged, yet the result is Ok, its lock is taken twice, two notifications go out and a ledger entry is appended |
| TransferSpec.LedgerRecordsExactlySuccesses | src/main/java/com/dws/challenge/service/impl/TransferService.java:54-82 | the ledger keeps its old entries and grows by one (the transfer's record) on Ok and by none on failure; a failure changes neither balances nor notifications |
| TransferSpec.TransferThenReverseRestores | src/main/java/com/dws/challenge/service/impl/TransferService.java:59-65 | from non-negative balances, a successful transfer sent straight back succeeds and restores every balance, leaving both entries in the ledger |
| TransferSpec.SumOfUpdate | src/main/java/com/dws/challenge/service/impl/TransferService.java:60-61 | setting one account's balance changes the sum over any duplicate-free list of accounts by exactly the difference, if the account is listed |
| TransferSpec.TransferConservesTotal | src/main/java/com/dws/challenge/service/impl/TransferService.java:59-65 | whatever the outcome, a transfer keeps the set of accounts and the sum of all balances in the store, self-transfer included |
| TransferSpec.TransferPreservesNonNegative | src/main/java/com/dws/challenge/service/impl/TransferService.java:59-61 | if every balance is non-negative before a transfer, every balance is non-negative after it |
| TransferSpec.Run | src/main/java/com/dws/challenge/service/impl/TransferService.java:29-57 | serving a sequence of requests keeps the set of accounts, keeps every old ledger entry and adds at most one entry per request |
| TransferSpec.RunConservesAndStaysNonNegative | src/main/java/com/dws/challenge/service/impl/TransferService.java:30-57 | over any sequence of transfers, the set of accounts and the total are unchanged and no balance becomes negative |
| TransferSpec.ScenarioSuccessfulTransfer | src/test/java/com/dws/challenge/service/impl/TransferServiceTest.java:51-69 | 1000.00 and 500.00, move 200.00 from 1 to 2: Ok, balances 800.00 and 700.00, the two notifications, one ledger entry |
| TransferSpec.ScenarioTransferToSmallerId | src/test/java/com/dws/challenge/service/impl/TransferServiceTest.java:101-125 | the same transfer from 2 to 1: Ok, balances 800.00 and 700.00, locks taken on 1 then 2, notifications to 2 then 1 |
| TransferSpec.ScenarioInvalidAmount | src/test/java/com/dws/challenge/service/impl/TransferServiceTest.java:71-84 | an amount of -100.00 gives InvalidAmount and leaves the state untouched |
| TransferSpec.ScenarioAccountNotFound | src/test/java/com/dws/challenge/service/impl/TransferServiceTest.java:86-100 | account 1 missing: AccountNotFound after one lookup, no save and no notification |
| TransferSpec.ScenarioInsufficientBalance | src/test/java/com/dws/challenge/service/impl/TransferServiceTest.java:168-179 | 50.00 on account 1 and 100.00 requested: InsufficientBalance, balances unchanged, no ledger entry and no notification |
| TransferServices.SuccessfulTransferScenario | src/test/java/com/dws/challenge/service/impl/TransferServiceTest.java:51-69 | the successful-transfer scenario stated against the class: Ok, the account objects end at 800.00 and 700.00, the two notifications go out in order and the ledger holds one entry |
| TransferServices.TransferService.constructor | src/main/java/com/dws/challenge/service/impl/TransferService.java:22-27 | the service starts over the given accounts, with saved balances equal to the accounts' balances and nothing logged |
| TransferServices.TransferService.FindById | src/main/java/com/dws/challenge/service/impl/TransferService.java:35-38 | returns the stored account object of that identifier, or null, and logs the lookup |
| TransferServices.TransferService.Save | src/main/java/com/dws/challenge/service/impl/TransferService.java:64-65 | persists the account's current balance under its identifier and logs the save |
| TransferServices.TransferService.Lock | src/main/java/com/dws/challenge/service/impl/TransferService.java:42-43 | records that the account's monitor is entered |
| TransferServices.TransferService.Notify | src/main/java/com/dws/challenge/service/impl/TransferService.java:68-71 | appends the notification when a notification service is present, and nothing otherwise |
| TransferServices.TransferService.SaveBoth | src/main/java/com/dws/challenge/service/impl/TransferService.java:63-65 | saves the source and then the target: each identifier's persisted balance becomes its object's balance, and the two saves are logged in that order |
| TransferServices.TransferService.LockBoth | src/main/java/com/dws/challenge/service/impl/TransferService.java:40-53 | the `<` branch of the code: the two monitors are entered in exactly the order `TransferSpec.LockOrder` gives, smaller identifier first |
| TransferServices.TransferService.NotifyBoth | src/main/java/com/dws/challenge/service/impl/TransferService.java:67-72 | with a notification service, the source holder's Sent notice and then the target holder's Received notice are appended; without one, nothing is sent |
| TransferServices.TransferService.PerformTransfer | src/main/java/com/dws/challenge/service/impl/TransferService.java:59-73 | equals TransferSpec.PerformTransfer on the observable state: a failed debit changes nothing; otherwise debit, credit, two saves and two notifications; the store invariant holds afterwards |
| TransferServices.TransferService.SaveTransferDetails | src/main/java/com/dws/challenge/service/impl/TransferService.java:75-82 | appends exactly the record (from, to, amount) to the ledger |
| TransferServices.TransferService.Transfer | src/main/java/com/dws/challenge/service/impl/TransferService.java:29-57 | outcome and new state equal TransferSpec.Transfer of the old state, so every TransferSpec lemma holds of the class; lock order is the code's `<` branch; store objects stay filed under their own identifiers |

## Left out

- Concurrency: the `synchronized` blocks, the `synchronized` modifiers on `debit` and `credit`, and thread interleavings are not modelled. Only the order in which the two monitors are entered is kept, as the `locks` log. Releasing the locks is not recorded. The no-circular-wait lemma is about that order, not about threads.
- `TransferSpec.NoCircularWait` covers transfers between distinct accounts only. A self-transfer enters the same monitor twice (TransferService.java:48-49), which Java allows because monitors are reentrant; the model has no notion of reentrancy, so as a lock sequence the pair (x, x) would wait on itself.
- The single `Account` object per identifier is what one transaction sees through the store's entity cache. Concurrent transactions usually load their own entity instances, so their monitors need not be shared at all. The model does not capture whether two transfers lock the same objects.
- `@Transactional` and rollback are not modelled. No path here mutates state before failing, so a rollback would have nothing to undo.
- Floating point: amounts and balances are integers of minor units. So the model does not capture `double` rounding, nor a NaN or infinite amount getting past the `amount <= 0` check.
- The `BigDecimal.valueOf(double)` conversion of the ledger amount is not modelled: the ledger stores the same integer amount.
- The `Transfer` record's generated `id` and its `OffsetDateTime.now()` timestamp come from the database and the clock. A ledger entry holds only (from, to, amount).
- Notification messages are structured events `(account, Sent/Received, amount, other account)`, not the concatenated text. A notifier that throws is not modelled.
- The repositories are in-memory maps and sequences: no persistence failure, no insert of new accounts. `Save` writes the balance under the entity's identifier.
- The code has no separate error for a failed account save or a failed ledger write, and it reports a missing source and a missing target with the same message. The model has one `AccountNotFound`, and saves and ledger writes cannot fail.
- The code sends the notifications inside `performTransfer` (TransferService.java:68-71), before `saveTransferDetails` writes the ledger entry (TransferService.java:55). Store calls, locks, notifications and ledger entries are kept in separate sequences, so the model does not record the order between them: notifications against the ledger entry, saves against notifications (TransferService.java:64-71), or locks against lookups.
- Self-transfer is not rejected by the code and is modelled as written; see `TransferSpec.SelfTransfer`.
- `Account.debit` called directly with a negative amount passes the guard and raises the balance. This is modelled literally in `DebitBalance`; the service never does this, because it rejects non-positive amounts first.
- `TransferController.java` (HTTP routing and status mapping), `MockNotificationService.java` (logging only) and `TransferRequest.java` (a plain request object) are not part of this model.
