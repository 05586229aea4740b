# Account ledger: debit/credit guard and the transfer sequence

This project models the core of a small Spring account-ledger service. The
service keeps accounts (id, owner name, balance) and banks (id, name, transfer
counter). The core logic is:

- the `Account` entity's `debit`, which refuses to take a balance below zero
  (`NotEnoughMoney`), and its `credit`, which always adds;
- the service's `transfer`, which loads, debits and saves the origin account,
  then loads, credits and saves the destination account, then loads the bank,
  increments its `totalTransfers` and saves it;
- the service's store pass-throughs `findAll`, `findById`, `save`, `deleteById`,
  `reviewBalance` and `reviewTotalTransfers`.

Modules, one per part of the program:

- `Results` (results.dfy): the thrown exceptions (`NotEnoughMoney`,
  `NoSuchElement` from `orElseThrow`, `EmptyResult` from the repository's
  `deleteById`) as `Outcome`/`Result` values.
- `Accounts` (account.dfy): `AccountData`, the stored value of an account, and
  the class `Account`, whose `Debit` and `Credit` methods update `balance` in
  place. Both are specified by the pure functions `Debited` and `Credited`.
- `Banks` (bank.dfy): `BankData` and the counter increment. The counter is a Java
  `int`, so `++` is modelled as 32-bit two's-complement (`Int32`, `Incremented`).
- `Stores` (store.dfy): the two repositories as maps keyed by id, plus the
  account table's identity counter. It holds the read operations (`FindById`,
  `ReviewBalance`, `ReviewTotalTransfers`, `FindAll`) and the writes (`SaveAccount`,
  `SaveBank`, `DeleteAccount`) as functions of the store. `Valid` is what the
  database guarantees: every row carries the key it is stored under, and every
  account id was handed out below the identity counter.
- `Transfers` (transfer.dfy): `Transfer`, the transfer as a function of the
  store. It returns the new store, the outcome and the list of repository calls
  made. The lemmas about it state what a transfer does.
- `Services` (service.dfy): the class `AccountService`. Its fields are the
  account map, the bank map and the identity counter. Its methods `Save`,
  `DeleteById` and `Transfer` are proved to produce exactly the state and
  result of the functions above. `Transfer` loads each row into a fresh
  `Account` object, calls `Debit` or `Credit` on it, and writes it back.
- `Scenarios` (scenarios.dfy): the unit tests' concrete cases (1000/2000 with a
  transfer of 100 or 1200, saving "Karen" without an id, deleting an account)
  proved from the class's contracts.

Balances are exact integers in minor units. Ids are natural numbers.

Behaviours of the code that the model makes explicit:

- The amount is never checked to be positive. A negative amount passes the
  origin's guard and can drive the destination below zero
  (`Transfers.NegativeAmountOverdrawsDestination`). The balance stays
  non-negative only for non-negative amounts.
- The counter is a 32-bit `int`. It goes up by exactly one below `2^31 - 1` and
  wraps to `-2^31` there.
- `transfer` runs inside a `@Transactional` unit of work; the model runs its
  sequence of loads and saves without that surrounding transaction. In the
  model a missing destination or bank therefore fails after the earlier saves
  (`TransferMissingDestination`, `TransferMissingBank`); under the container
  both exceptions are unchecked, so its rollback would undo those earlier
  writes.

## Model

| member | source | states |
|---|---|---|
| `Accounts.Debited` | src/main/java/com/junit/app/models/Account.java:27-33 | debit succeeds iff amount <= balance; on success the new balance is non-negative and plus the amount gives back the old one; otherwise the error is NotEnoughMoney |
| `Accounts.Credited` | src/main/java/com/junit/app/models/Account.java:35-37 | what `credit` does to a balance, with no guard; `Account.Credit` is proved equal to it; a non-negative amount never lowers the balance, and on a non-negative balance a debit of the same amount undoes it |
| `Accounts.DebitThenCreditRestores` | src/main/java/com/junit/app/models/Account.java:27-37 | a successful debit followed by a credit of the same amount restores the balance exactly |
| `Accounts.DebitWholeBalance` | src/main/java/com/junit/app/models/Account.java:29 | debiting exactly the whole balance succeeds and leaves 0, because the guard is a strict `< 0` |
| `Accounts.DebitOverdraftFails` | src/main/java/com/junit/app/models/Account.java:28-31 | an amount above the balance makes debit fail with NotEnoughMoney |
| `Accounts.Account.constructor` | src/main/java/com/junit/app/models/Account.java:15-25 | the all-arguments constructor sets id, name and balance |
| `Accounts.Account.Debit` | src/main/java/com/junit/app/models/Account.java:27-33 | outcome and new balance are those of `Debited`; on failure the balance is unchanged (the throw precedes the assignment); on success it is non-negative; id and name never change |
| `Accounts.Account.Credit` | src/main/java/com/junit/app/models/Account.java:35-37 | the balance becomes old balance plus amount; id and name never change |
| `Banks.Incremented` | src/main/java/com/junit/app/services/AccountServiceImpl.java:74-75 | `++totalTransfers` is one more modulo 2^32 as a signed int, and is larger than the old value below the largest int |
| `Banks.IncrementedAddsOne` | src/main/java/com/junit/app/services/AccountServiceImpl.java:74-75 | below the largest int the counter goes up by exactly 1 |
| `Banks.IncrementedWraps` | src/main/java/com/junit/app/services/AccountServiceImpl.java:74-75 | at the largest int the counter wraps to the smallest int |
| `Stores.FindById` | src/main/java/com/junit/app/services/AccountServiceImpl.java:30-32 | fails with NoSuchElement iff the id is absent; otherwise returns the stored record unchanged, which carries that id |
| `Stores.ReviewBalance` | src/main/java/com/junit/app/services/AccountServiceImpl.java:55-58 | fails with NoSuchElement iff the account is absent; otherwise returns its stored balance |
| `Stores.ReviewTotalTransfers` | src/main/java/com/junit/app/services/AccountServiceImpl.java:48-51 | fails with NoSuchElement iff the bank is absent; otherwise returns its stored counter |
| `Stores.IdsBelow` | src/main/java/com/junit/app/services/AccountServiceImpl.java:24-26 | lists, in strictly ascending order, exactly the stored ids below the bound |
| `Stores.FindAll` | src/main/java/com/junit/app/services/AccountServiceImpl.java:24-26 | lists every stored account exactly once (as many as are stored, each a stored record, every stored record present), in ascending id order |
| `Stores.SaveAccount` | src/main/java/com/junit/app/services/AccountServiceImpl.java:36-38 | an account without id gets a fresh id; one with an id is written under it; name and balance are kept; banks untouched; the store stays valid |
| `Stores.SaveBank` | src/main/java/com/junit/app/services/AccountServiceImpl.java:76 | the bank row under the bank's id is replaced; accounts untouched; the store stays valid |
| `Stores.DeleteAccount` | src/main/java/com/junit/app/services/AccountServiceImpl.java:42-44 | succeeds iff the id is stored; then exactly that row is gone (one fewer account) and everything else is unchanged; otherwise EmptyResult |
| `Stores.DeleteThenFind` | src/main/java/com/junit/app/services/AccountServiceImpl.java:24-44 | after deleting an existing account, findById on it fails and findAll lists one account fewer |
| `Stores.SaveThenFind` | src/main/java/com/junit/app/services/AccountServiceImpl.java:30-38 | a saved account is found again under its id with the same name and balance; a save without id makes findAll one longer |
| `Transfers.Transfer` | src/main/java/com/junit/app/services/AccountServiceImpl.java:62-77 | the transfer sequence as a function of the store (new store, outcome, calls made); `AccountService.Transfer` is proved equal to it and the `Transfers` lemmas below give its contract; its own ensures: the first call always loads the origin, all six calls are made iff it succeeds, and a valid store stays valid |
| `Transfers.TransferSucceedsIff` | src/main/java/com/junit/app/services/AccountServiceImpl.java:62-77 | transfer succeeds iff origin, destination and bank exist and the origin holds at least the amount |
| `Transfers.TransferKeepsValid` | src/main/java/com/junit/app/services/AccountServiceImpl.java:62-77 | whatever the outcome, the store stays valid and no id is added or removed |
| `Transfers.TransferMovesMoney` | src/main/java/com/junit/app/services/AccountServiceImpl.java:62-77 | on success with origin != destination: origin loses the amount, destination gains it, bank counter incremented, nothing else changes, and the two balances' sum is kept |
| `Transfers.TransferToSelf` | src/main/java/com/junit/app/services/AccountServiceImpl.java:65-71 | a successful transfer from an account to itself leaves every account as it was and counts one transfer |
| `Transfers.TransferInsufficientFunds` | src/main/java/com/junit/app/services/AccountServiceImpl.java:65-67 | if the origin holds less than the amount: NotEnoughMoney, store unchanged, only the origin lookup made |
| `Transfers.TransferMissingOrigin` | src/main/java/com/junit/app/services/AccountServiceImpl.java:65 | an unknown origin fails with NoSuchElement, store unchanged, only the origin lookup made |
| `Transfers.TransferMissingDestination` | src/main/java/com/junit/app/services/AccountServiceImpl.java:65-69 | an unknown destination fails with NoSuchElement after the debited origin has been saved (calls: find, save, find) |
| `Transfers.TransferMissingBank` | src/main/java/com/junit/app/services/AccountServiceImpl.java:65-73 | an unknown bank fails with NoSuchElement after both account saves; the counter is untouched |
| `Transfers.TransferTouchesOnlyItsRecords` | src/main/java/com/junit/app/services/AccountServiceImpl.java:62-77 | whatever the outcome, no account other than origin and destination and no bank other than the given one changes |
| `Transfers.TransferSaveCounts` | src/main/java/com/junit/app/services/AccountServiceImpl.java:67-76 | a successful transfer makes exactly two account saves and one bank save, in that order; a failed debit makes none |
| `Transfers.TransferConservesMoney` | src/main/java/com/junit/app/services/AccountServiceImpl.java:65-71 | a successful transfer keeps the sum of all balances in the ledger |
| `Transfers.TransferKeepsBalancesNonNegative` | src/main/java/com/junit/app/models/Account.java:27-33 | for a non-negative amount, a transfer (any outcome) leaves no account overdrawn if none was before |
| `Transfers.Fixture` | src/main/java/com/junit/app/Data.java:14-24 | the test fixtures (Kevin 1000, Brando 2000, bank with counter 0) form a valid, non-overdrawn store |
| `Transfers.NegativeAmountOverdrawsDestination` | src/main/java/com/junit/app/services/AccountServiceImpl.java:62-71 | with no check on the amount, transferring -3000 from 1000 to 2000 succeeds and leaves the destination at -1000 |
| `Services.AccountService.constructor` | src/main/java/com/junit/app/services/AccountServiceImpl.java:15-20 | the service starts over repositories holding a given valid store |
| `Services.AccountService.Save` | src/main/java/com/junit/app/services/AccountServiceImpl.java:36-38 | the new state and the returned account are those of `SaveAccount`; the store stays valid |
| `Services.AccountService.DeleteById` | src/main/java/com/junit/app/services/AccountServiceImpl.java:42-44 | the outcome and the new state are those of `DeleteAccount`; the store stays valid |
| `Services.AccountService.Transfer` | src/main/java/com/junit/app/services/AccountServiceImpl.java:62-77 | the new state, the outcome and the calls made are those of `Transfers.Transfer`; the store stays valid |

## Left out

- HTTP routing, JSON, status codes and the response built with today's date (`AccountController`): framework code and wall-clock time.
- `@Transactional` rollback and isolation: these are provided by the container. The model runs the writes in sequence and proves where a later failure leaves earlier writes in place.
- Concurrency between transfers: each operation runs to completion on its own.
- Null arguments: ids and the amount are Java objects (`Long`, `BigDecimal`) that a request body may leave null, while the model's ids are `nat` and the amount an `int`. In the source a null amount throws a `NullPointerException` in `debit` (`balance.subtract(null)`) after the origin lookup and before any save; a null destination or bank id makes `findById(null)` throw after the origin save (and, for a null bank id, after the destination save); a null origin id throws at the first lookup.
- `findByName`: it is a JPQL query declared on the repository interface, not service logic.
- `BigDecimal` scale and formatting ("900" vs "900.00"): they come from the column scale and JSON, not from the ledger logic. Balances are exact integers.
- Object identity of loaded entities (one object returned by two lookups under a mock): the model's repositories hold values, and each load makes a fresh `Account` object.
- The repository implementations are not part of this model. Three behaviours are assumed: `save` of an account without an id assigns the next identity value; `save` with an id writes the row under that id; `deleteById` of an absent id throws.
- `Stores.FindAll`: the order is stated as ascending id, which equals creation order for identity-assigned ids. The database's own row order is not modelled.
- `TransactionDTO`: a plain data holder with no behaviour.
