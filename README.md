# Actor ledger: account state machine and transfer saga

This project models the core of a small ledger in two lineages. One runs on
Orleans grains and the other on Service Fabric actors. Each lineage keeps one
`Account` entity per account id. The entity holds a record
`{Active, Balance, InterestRate}`. A stateless `Transactor` creates accounts,
deletes them, reads balances and moves money with a two-leg saga.

The model takes the lineage as a parameter, `Accounts.Variant`:

- `FlagEnforcing` is the Orleans account. Every balance and rate operation
  fails unless `Active` is set, and interest accrual skips an inactive record.
- `NoFlag` is the Service Fabric account. The `Active` field exists but the
  account never reads it or writes it. Any id accepts deposits.

Amounts are `real`. Double rounding, NaN and the infinities are not modelled
(see "Left out").

Files and modules:

- `account_state.dfy`, module `AccountStates`: the record, its default value
  (`new AccountState()`: inactive, zero balance, zero rate) and the invariant
  `WellFormed` (balance and rate not negative).
- `account.dfy`, module `Accounts`: one pure step function per grain
  operation. Each one maps the record before the call to the reply and the
  record after it. `Error` is the error taxonomy: `InvalidArgument` stands for
  `ArgumentException`. `Inactive`, `InsufficientFunds` and `UnknownReminder`
  are the three `InvalidOperationException` cases. `Unknown` is a fault of the
  runtime or the network.
- `histories.dfy`, module `Histories`: sequences of account commands, and
  lemmas about whole runs (invariants kept, flag never written, frozen
  inactive accounts, the balance as initial balance plus deposits minus
  withdrawals).
- `actors.dfy`, module `Actors`: class `AccountActors`, the population of
  actors. Its field `states` maps each id to its persisted record. A missing
  id reads as the default record, because Orleans hands over a missing
  persistent state as a new default object and the Service Fabric actor
  installs one on activation. Each method is one grain call. It reads the
  record, updates it in place and writes it back, and its `ensures` ties the
  new map to the step function in `Accounts`. The class invariant `Valid`
  (every stored balance and rate is non-negative) is established by the
  constructor and kept by every method that changes a record, and by the
  transactor operations built on them. `Total`, the sum of all
  balances, comes with the lemmas that the transfer's conservation proof uses.
- `transactor.dfy`, module `Transactors`: the transactor operations as methods
  on an `AccountActors`. Each remote call can be made to fail through a fault
  plan parameter (`TransferFaults`, `CreateFaults`, `DeleteFaults`, `fault`).
  This is how the compensation path and the stuck-funds state are reached. A
  call that faults fails with `Unknown` and changes no record. The same
  methods model both transactor files, whose code is the same apart from
  DeleteAccount. DeleteAccount branches on the variant.

Where the specification and the code disagree, the model follows the code:

- The Service Fabric transactor calls `ActivateAsync` and `IsActive`
  (SF/Transactor/Transactor.cs:50,67,120). The Service Fabric `IAccount`
  (SF/Account.Interfaces/IAccount.cs:12-23) and its account do not have them.
  The model gives both variants the abstract operations of the Orleans
  interface: Activate sets the flag and IsActive reads it. The Service Fabric
  account as written never touches the flag
  (`Histories.ServiceFabricNeverWritesActive`).
- The design description says a failing cleanup in CreateAccount is
  swallowed. In the code the cleanup is awaited inside the `catch`, so its
  exception replaces the original one. `Transactors.CreateAccount` returns the
  cleanup's error in that case.
- The design description says the non-flag DeleteAccount reports `true`
  unconditionally. The Service Fabric transactor returns what `IsActive`
  answered before the deletion. The model returns that value.

## Model

| member | source | states |
|---|---|---|
| `Accounts.Activate` | Orleans/Actors/Account.cs:82-87 | Activation sets Active and leaves Balance and InterestRate as they were; afterwards the flag check passes |
| `Accounts.GetBalance` | Orleans/Actors/Account.cs:91-101 | Succeeds exactly when the flag check passes (always for the no-flag variant), then returns the stored balance; otherwise fails as inactive |
| `Accounts.GetInterestRate` | Orleans/Actors/Account.cs:150-160 | Succeeds exactly when the flag check passes, then returns the stored rate; otherwise fails as inactive |
| `Accounts.Withdraw` | Orleans/Actors/Account.cs:103-127 | Negative amount fails as invalid argument first, then an inactive flag-enforcing account fails, then an amount above the balance fails as insufficient funds; every failure leaves the record unchanged; success happens exactly when none apply, subtracts the amount, returns the new balance, which is not negative, and keeps Active and InterestRate |
| `Accounts.Deposit` | Orleans/Actors/Account.cs:129-148 | Negative amount fails first, then an inactive flag-enforcing account; failures change nothing; success happens exactly otherwise, adds the amount, returns the new balance and keeps the other fields |
| `Accounts.SetInterestRate` | Orleans/Actors/Account.cs:162-178 | Negative rate fails first, then an inactive flag-enforcing account; failures change nothing; success changes only the rate, to the given value |
| `Accounts.ComputeInterest` | Orleans/Actors/Account.cs:70-80 | On an account the flag check admits, the balance becomes Balance * (1 + InterestRate); an inactive Orleans account is left as it is; Active and InterestRate never change |
| `Accounts.ReceiveReminder` | Orleans/Actors/Account.cs:59-68 | Succeeds exactly for the name "ComputeInterestReminder" and then accrues interest; any other name fails with that name and leaves the record unchanged |
| `Accounts.Delete` | Orleans/Actors/Account.cs:180-189 | Returns the Active value before deletion; afterwards the Orleans grain refuses the balance as inactive and the Service Fabric actor reports balance 0 and rate 0 |
| `Accounts.InterestNeverShrinks` | SF/Account/Account.cs:73-78 | On a well-formed record, interest accrual never lowers the balance and keeps the record well formed |
| `Accounts.InterestExample` | Orleans/Actors/Account.cs:77 | 100 at rate 0.05 becomes 105 after one accrual and 110.25 after two |
| `Accounts.DepositThenWithdraw` | SF/Account/Account.cs:86-121 | On a non-negative balance, withdrawing the amount just deposited restores the record exactly and returns the original balance |
| `Accounts.WithdrawThenDeposit` | Orleans/Actors/Transactor.cs:93-96 | Depositing the amount just withdrawn restores the source record exactly, which is why the saga's compensation undoes the withdraw leg |
| `Histories.ApplyKeepsWellFormed` | SF/Account/Account.cs:88-100 | Every account command, successful or not, keeps balance and rate non-negative |
| `Histories.ReplayKeepsWellFormed` | SF/Account/Account.cs:107-139 | Balance and rate stay non-negative over any sequence of commands, in both variants |
| `Histories.ServiceFabricNeverWritesActive` | SF/Account/AccountState.cs:9 | No sequence of the Service Fabric account's own operations changes the Active field |
| `Histories.ServiceFabricAccountStaysInactive` | SF/Account/Account.cs:33-37 | A lazily created Service Fabric account starts from the default record, stays inactive under its own operations and keeps a non-negative balance |
| `Histories.InactiveAccountIsFrozen` | Orleans/Actors/Account.cs:110-115 | On an inactive Orleans account no withdraw, deposit, rate or reminder command changes the record |
| `Histories.NeverActivatedOrleansAccount` | Orleans/Actors/AccountState.cs:9-15 | A default Orleans record (inactive, zero balance, zero rate) keeps its default values under those commands and still refuses to report a balance |
| `Histories.ReplayAppend` | Orleans/Actors/Account.cs:103-189 | Running two command sequences back to back is running their concatenation |
| `Histories.DeleteForgetsHistory` | Orleans/Actors/Account.cs:186 | Whatever came before, a history ending in a deletion leaves the default record |
| `Histories.BalanceIsLedger` | Orleans/Actors/Account.cs:103-148 | On a record whose flag check passes, after any run of deposits and withdrawals in any order, the balance is the initial balance plus every deposit of a non-negative amount minus every withdrawal that went through, each withdrawal judged against the balance the earlier commands left |
| `Actors.TotalWithout` | Orleans/Actors/Transactor.cs:72-105 | Any stored account's balance can be split off the total of all balances |
| `Actors.TotalUpdate` | Orleans/Actors/Transactor.cs:77-104 | Replacing one account's record changes the total by exactly the change of that balance |
| `Actors.TotalRemove` | SF/Transactor/Transactor.cs:63-73 | Deleting an account's record takes exactly its balance out of the total |
| `Actors.AccountActors.constructor` | SF/Account/Account.cs:29-37 | A new population of actors of the given variant has no stored records, so the class invariant holds from the start |
| `Actors.AccountActors.OnActivate` | SF/Account/Account.cs:33-37 | Installs the default record only where none exists; an existing record is left alone, and no account sees a different record afterwards, and it keeps the class invariant that every stored balance and rate is non-negative |
| `Actors.AccountActors.Activate` | Orleans/Actors/Account.cs:82-87 | Stores the activated record under the id; nothing else changes, and it keeps the class invariant that every stored balance and rate is non-negative |
| `Actors.AccountActors.IsActive` | Orleans/Actors/Account.cs:89 | Returns the stored Active flag without changing any state |
| `Actors.AccountActors.GetBalance` | SF/Account/Account.cs:80-84 | Returns what the balance step function gives for the stored record, without changing any state |
| `Actors.AccountActors.Withdraw` | SF/Account/Account.cs:86-105 | Returns the step function's reply; on success stores its new record under the id, on failure leaves every record as it was, and it keeps the class invariant that every stored balance and rate is non-negative |
| `Actors.AccountActors.Deposit` | SF/Account/Account.cs:107-121 | Returns the step function's reply; on success stores its new record, on failure changes nothing; a never-activated no-flag id accepts the deposit, and it keeps the class invariant that every stored balance and rate is non-negative |
| `Actors.AccountActors.GetInterestRate` | SF/Account/Account.cs:123-127 | Returns what the rate step function gives for the stored record, without changing any state |
| `Actors.AccountActors.SetInterestRate` | SF/Account/Account.cs:129-139 | Returns the step function's reply; on success stores the record with the new rate, on failure changes nothing, and it keeps the class invariant that every stored balance and rate is non-negative |
| `Actors.AccountActors.ComputeInterest` | SF/Account/Account.cs:73-78 | Where the flag check admits the account, stores the compounded record; otherwise changes nothing, and it keeps the class invariant that every stored balance and rate is non-negative |
| `Actors.AccountActors.ReceiveReminder` | SF/Account/Account.cs:62-71 | Returns the dispatch step function's reply; for the interest reminder on an account the flag check admits, stores the record that function gives under the id, and otherwise changes no record; it keeps the class invariant that every stored balance and rate is non-negative |
| `Actors.AccountActors.Delete` | Orleans/Actors/Account.cs:180-189 | Returns the pre-delete Active flag and drops the stored record, so the account reads as the default record, and it keeps the class invariant that every stored balance and rate is non-negative |
| `Actors.AccountActors.RemoveActor` | SF/Transactor/Transactor.cs:68-70 | The actor's record is gone and the id reads as the default record, and it keeps the class invariant that every stored balance and rate is non-negative |
| `Transactors.WithdrawLegFailureChangesNothing` | Orleans/Actors/Transactor.cs:77-87 | When the withdraw call faults or is refused, the transfer returns false and every record is as before |
| `Transactors.TransferCompletes` | Orleans/Actors/Transactor.cs:89-104 | When both legs go through, the source is debited and the target credited by the amount, and the transfer returns true |
| `Transactors.TransferRollsBack` | Orleans/Actors/Transactor.cs:93-99 | When the deposit leg fails and the compensating deposit goes through, the transfer returns false and every account reads exactly as before |
| `Transactors.TransferStuck` | SF/Transactor/Transactor.cs:103-110 | When the deposit leg and then the compensation fail, the error escapes with the source debited and nothing credited to the target |
| `Transactors.TransferErrorIsFault` | Orleans/Actors/Transactor.cs:93-99 | The only error a transfer lets escape is a fault of the compensating call; the account itself never refuses the re-deposit |
| `Transactors.TransferConservesMoney` | Orleans/Actors/Transactor.cs:72-105 | Whenever the transfer returns, the total of all balances is unchanged; when it fails, the total is short by exactly the amount |
| `Transactors.TransferKeepsWellFormed` | Orleans/Actors/Transactor.cs:72-105 | A transfer keeps every balance and rate non-negative |
| `Transactors.TransferToUnknownTarget` | SF/Transactor/Transactor.cs:99-114 | A transfer to an id with no record rolls back with every account as before in the flag variant; in the no-flag variant it returns true and the new target holds the amount |
| `Transactors.Transfer` | Orleans/Actors/Transactor.cs:72-105 | The reply and the new records are those of the transfer saga run on the old records: withdraw, deposit, compensate as the code orders them, and it keeps the class invariant that every stored balance and rate is non-negative |
| `Transactors.DeletionForgetsAccount` | Orleans/Actors/Transactor.cs:59-63 | A deletion that goes through makes the id read as the default record, leaves every other account alone and takes its balance out of the total |
| `Transactors.DeleteAccount` | SF/Transactor/Transactor.cs:63-73 | Fails with nothing changed exactly when one of its calls faults (two calls in the no-flag variant, one in the flag variant); otherwise returns the Active flag read before the deletion and drops the record, and it keeps the class invariant that every stored balance and rate is non-negative |
| `Transactors.CreationSucceeds` | Orleans/Actors/Transactor.cs:39-57 | Creation succeeds exactly when no call faults and the initial balance is not negative; the account is then active with its old balance plus the initial balance (the initial balance itself for a new id) and rate 0.05, and no other record changes |
| `Transactors.FailedCreationCleansUp` | Orleans/Actors/Transactor.cs:50-54 | A failed creation whose cleanup goes through removes the account, leaves every other record as before and raises the first failed step's error |
| `Transactors.FailedCleanupLeavesOthersAlone` | SF/Transactor/Transactor.cs:54-58 | When the cleanup deletion fails too, its error is the one that escapes, and no other account changes |
| `Transactors.CreationKeepsWellFormed` | Orleans/Actors/Transactor.cs:39-57 | Creation keeps every balance and rate non-negative, on every path |
| `Transactors.CreateAccount` | Orleans/Actors/Transactor.cs:39-57 | The reply and the new records are those of the creation steps run on the old records: activate, deposit, set the rate, and delete on the first failure, and it keeps the class invariant that every stored balance and rate is non-negative |
| `Transactors.GetAccountBalance` | Orleans/Actors/Transactor.cs:65-70 | Forwards the account's balance reply without changing state; a never-created id reads 0 in the no-flag variant and fails as inactive in the flag variant |
| `Transactors.CheckAccountExists` | SF/Transactor/Transactor.cs:117-121 | Returns the account's Active flag without changing state; a never-created id reports false |
| `Transactors.DemoTransfers` | Orleans/Client/Program.cs:22-34 | Two accounts created with 100 each and a transfer of 60 from A to B give true; a second transfer of 60 gives false; the store then holds A active with 40 and B active with 160, both at rate 0.05 |
| `Transactors.DemoSession` | Orleans/Client/Program.cs:22-55 | After the two transfers, the balances read 40 and 160; after two interest ticks on each account at rate 0.05 they read 44.1 and 176.4; after B is deleted, A still reads 44.1 and B fails as inactive (flag variant) or reads 0 (no-flag variant) |
| `Transactors.StuckFundsSession` | SF/Transactor/Transactor.cs:99-110 | When the deposit leg and then the compensation fault, the error escapes and the source is left at 40 while the target stays at 100 |
| `Transactors.MistypedTargetSession` | SF/Transactor/Transactor.cs:99-114 | A transfer of 10 to an id nobody created rolls back in the flag variant; in the no-flag variant it succeeds and creates the target holding 10 |

## Left out

- Reminder registration and unregistration (Orleans/Actors/Account.cs:32-57, SF/Account/Account.cs:39-60) are runtime services whose failures are swallowed. Only the name dispatch and the interest accrual are modelled.
- The runtime's queueing is not modelled. Each grain call on one account is one atomic step, as the single-writer guarantee makes it, so calls on one account never interleave with each other.
- Transactors.Transfer, Transactors.CreateAccount: their grain calls run back to back in the model. In the source each call is a separate await and the transactor is a `[StatelessWorker]` (Orleans/Actors/Transactor.cs:14), so other callers' calls on the same accounts may run between them. For example, a `DeleteAccountAsync(from)` that lands between the failed deposit leg and the compensating deposit (Orleans/Actors/Transactor.cs:91-95) makes the re-deposit fail as inactive (Orleans/Actors/Account.cs:138-141), and that error escapes the transfer. `Transactors.TransferErrorIsFault` and `Transactors.TransferConservesMoney` are stated for transfers that no other call interleaves with.
- `WriteStateAsync`, `ClearStateAsync` and the Service Fabric StateManager get and set are assignments to the map and removals from it. Storage durability is foreign to the model.
- The runtime calls `OnActivate` before the first call on an id. The model does not make that call itself. A missing record reads as the default, which is the record `OnActivate` installs, and `OnActivate` is proved to change no account's view.
- Actor lookup (`GrainFactory.GetGrain`, `ActorProxy.Create`, `ActorServiceProxy`) is a map access. Actor deletion is the removal of the map entry.
- Logging, cancellation tokens and `Guid.NewGuid()` are not observable. CreateAccount takes the new id as a parameter. Id uniqueness is not enforced, as in the source.
- A faulty remote call fails before it reaches the account. A reply lost after the account applied the change is not modelled.
- Actors.AccountActors.Withdraw, Actors.AccountActors.Deposit, Actors.AccountActors.SetInterestRate, Actors.AccountActors.ComputeInterest, Actors.AccountActors.Activate: a failing `WriteStateAsync` is not modelled. The Orleans grain changes its in-memory record before the write (Orleans/Actors/Account.cs:77-78, 85-86, 122-124, 143-145, 176-177). A store fault therefore leaves the record changed in memory while the caller gets an exception. For example, a store fault on the withdraw leg of a transfer returns false with the source debited in memory.
- Accounts.ComputeInterest: computes `Balance * (1 + InterestRate)` exactly on reals and does not model double rounding.
- Accounts.Withdraw, Accounts.Deposit, Accounts.SetInterestRate: NaN and infinite amounts and rates are not modelled. In the source a NaN passes both `amount < 0` and `amount > Balance` (Orleans/Actors/Account.cs:105,117, SF/Account/Account.cs:88,95), so `WithdrawAsync(NaN)` succeeds and stores a NaN balance. `SetInterestRateAsync(NaN)` passes the check at Orleans/Actors/Account.cs:164 and stores NaN, and `DepositAsync(+∞)` stores an infinite balance. The non-negativity invariants (`Histories.ReplayKeepsWellFormed`, `Transactors.TransferKeepsWellFormed`, `Transactors.CreationKeepsWellFormed` and the class invariant `Actors.AccountActors.Valid`) are stated for real amounts.
- The hosting and demo programs and the interface files hold no account or transfer logic. `Transactors.DemoSession` makes every call of the demo client (Orleans/Client/Program.cs:22-55) and leaves out its console output. The 130-second wait (Orleans/Client/Program.cs:41-42) becomes two interest ticks on each account, which is how many the one-minute reminder period gives in that time. Reminder timing itself is not modelled.
