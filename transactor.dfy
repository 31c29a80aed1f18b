/**
 * The transactor: a stateless coordinator that creates and deletes accounts,
 * reads balances and moves money between two accounts with a two-leg saga
 * (withdraw from the source, deposit to the target, re-deposit to the source
 * if the second leg fails). It holds no state; every operation acts on the
 * account actors it is given.
 *
 * Each remote call the coordinator makes may also fail on the way, through a
 * fault of the runtime or the network, before it reaches the account. The
 * fault plans below say which calls do; a call that faults fails with
 * `Unknown` and leaves every record as it was.
 */
module Transactors {
  import opened AccountStates
  import opened Accounts
  import opened Actors

  /** The rate CreateAccount installs on a new account. */
  const DefaultInterestRate: real := 0.05

  /** Which calls of a transfer fault: the withdraw leg, the deposit leg, the compensating deposit. */
  datatype TransferFaults = TransferFaults(withdraw: bool, deposit: bool, compensate: bool)

  /** Which calls of a deletion fault. `probe` is the IsActive call that only
      the Service Fabric transactor makes; `remove` is the deletion itself. */
  datatype DeleteFaults = DeleteFaults(probe: bool, remove: bool)

  /** Which calls of an account creation fault, and how its cleanup fares. */
  datatype CreateFaults = CreateFaults(activate: bool, deposit: bool, setRate: bool, cleanup: DeleteFaults)

  const NoTransferFaults: TransferFaults := TransferFaults(false, false, false)
  const NoDeleteFaults: DeleteFaults := DeleteFaults(false, false)
  const NoCreateFaults: CreateFaults := CreateFaults(false, false, false, NoDeleteFaults)

  /** `m` with `delta` added to the balance of `id` (a missing record counts as the default). */
  function Credit(m: map<string, AccountState>, id: string, delta: real): (m': map<string, AccountState>)
    ensures Lookup(m', id).balance == Lookup(m, id).balance + delta
    ensures Lookup(m', id).active == Lookup(m, id).active
    ensures Lookup(m', id).interestRate == Lookup(m, id).interestRate
    ensures forall x :: x != id ==> Lookup(m', x) == Lookup(m, x)
  {
    var s := Lookup(m, id);
    m[id := s.(balance := s.balance + delta)]
  }

  /** A credit that leaves the account's balance non-negative keeps every record well formed. */
  lemma CreditKeepsWellFormed(m: map<string, AccountState>, id: string, delta: real)
    requires AllWellFormed(m)
    requires Lookup(m, id).balance + delta >= 0.0
    ensures AllWellFormed(Credit(m, id, delta))
  {
    var m' := Credit(m, id, delta);
    forall x | x in m' ensures WellFormed(m'[x]) {
      if x != id {
        assert x in m && m'[x] == m[x];
      }
    }
  }

  /** The withdraw leg of a transfer fails: lost in transit or refused by the source. */
  predicate WithdrawLegFails(v: Variant, source: AccountState, amount: real, faults: TransferFaults) {
    faults.withdraw || Withdraw(v, source, amount).result.Failure?
  }

  /** The deposit leg fails, once the withdraw leg has gone through: lost in
      transit, or refused by an inactive Orleans target. The amount is known
      to be non-negative by then. */
  predicate DepositLegFails(v: Variant, target: AccountState, faults: TransferFaults) {
    faults.deposit || !Admits(v, target)
  }

  /** The deletion fails: the Orleans transactor makes one call, the Service Fabric one two. */
  predicate DeleteFails(v: Variant, faults: DeleteFaults) {
    faults.remove || (v.NoFlag? && faults.probe)
  }

  /** Activate, deposit and rate setting all go through. */
  predicate SetupSucceeds(initialBalance: real, faults: CreateFaults) {
    !faults.activate && !faults.deposit && initialBalance >= 0.0 && !faults.setRate
  }

  /** The error of the first setup step that fails. */
  function SetupError(initialBalance: real, faults: CreateFaults): Error {
    if faults.activate || faults.deposit then Unknown
    else if initialBalance < 0.0 then InvalidArgument
    else Unknown
  }

  /** What a transactor operation returns and the records it leaves behind. */
  datatype Effect<T> = Effect(result: Result<T>, states: map<string, AccountState>)

  /** The transfer saga on the stored records `m`: withdraw from `from`; if
      that fails, report false. Then deposit to `to`; if that fails, deposit
      back to `from` and report false, unless that compensating deposit fails
      as well, whose error then escapes. */
  function TransferSaga(v: Variant, m: map<string, AccountState>, from: string, to: string, amount: real,
                        faults: TransferFaults): Effect<bool>
  {
    var w := Withdraw(v, Lookup(m, from), amount);
    if faults.withdraw || w.result.Failure? then Effect(Success(false), m)
    else
      var debited := m[from := w.state];
      var d := Deposit(v, Lookup(debited, to), amount);
      if !faults.deposit && d.result.Success? then Effect(Success(true), debited[to := d.state])
      else
        var c := Deposit(v, Lookup(debited, from), amount);
        if faults.compensate then Effect(Failure(Unknown), debited)
        else if c.result.Failure? then Effect(Failure(c.result.error), debited)
        else Effect(Success(false), debited[from := c.state])
  }

  /** The withdraw leg fails: false, the deposit is never attempted, nothing changes. */
  lemma WithdrawLegFailureChangesNothing(v: Variant, m: map<string, AccountState>, from: string, to: string,
                                         amount: real, faults: TransferFaults)
    requires WithdrawLegFails(v, Lookup(m, from), amount, faults)
    ensures TransferSaga(v, m, from, to, amount, faults) == Effect(Success(false), m)
  {
  }

  /** Both legs succeed: the source is debited, the target credited, true. */
  lemma TransferCompletes(v: Variant, m: map<string, AccountState>, from: string, to: string,
                          amount: real, faults: TransferFaults)
    requires !WithdrawLegFails(v, Lookup(m, from), amount, faults)
    requires !DepositLegFails(v, Lookup(m, to), faults)
    ensures TransferSaga(v, m, from, to, amount, faults) ==
              Effect(Success(true), Credit(Credit(m, from, -amount), to, amount))
  {
    var w := Withdraw(v, Lookup(m, from), amount);
    assert m[from := w.state] == Credit(m, from, -amount);
  }

  /** The deposit leg fails and the compensation goes through: false, and
      every account holds what it held before. */
  lemma TransferRollsBack(v: Variant, m: map<string, AccountState>, from: string, to: string,
                          amount: real, faults: TransferFaults)
    requires !WithdrawLegFails(v, Lookup(m, from), amount, faults)
    requires DepositLegFails(v, Lookup(m, to), faults) && !faults.compensate
    ensures TransferSaga(v, m, from, to, amount, faults).result == Success(false)
    ensures forall x :: Lookup(TransferSaga(v, m, from, to, amount, faults).states, x) == Lookup(m, x)
  {
    var w := Withdraw(v, Lookup(m, from), amount);
    WithdrawThenDeposit(v, Lookup(m, from), amount);
    assert m[from := w.state][from := Lookup(m, from)] == m[from := Lookup(m, from)];
  }

  /** The compensation fails too: its error escapes, the source stays debited
      and the target never received the amount. */
  lemma TransferStuck(v: Variant, m: map<string, AccountState>, from: string, to: string,
                      amount: real, faults: TransferFaults)
    requires !WithdrawLegFails(v, Lookup(m, from), amount, faults)
    requires DepositLegFails(v, Lookup(m, to), faults) && faults.compensate
    ensures TransferSaga(v, m, from, to, amount, faults) ==
              Effect(Failure(Unknown), Credit(m, from, -amount))
  {
    var w := Withdraw(v, Lookup(m, from), amount);
    assert m[from := w.state] == Credit(m, from, -amount);
  }

  /** Without a fault on it, the compensating deposit cannot be refused, so
      the only escaping error is a fault. */
  lemma TransferErrorIsFault(v: Variant, m: map<string, AccountState>, from: string, to: string,
                             amount: real, faults: TransferFaults)
    ensures TransferSaga(v, m, from, to, amount, faults).result.Failure? ==>
              faults.compensate && TransferSaga(v, m, from, to, amount, faults).result.error == Unknown
  {
  }

  /** The total of all balances is unchanged whenever the saga returns, and
      short by exactly the amount in the stuck-funds case. */
  lemma TransferConservesMoney(v: Variant, m: map<string, AccountState>, from: string, to: string,
                               amount: real, faults: TransferFaults)
    ensures TransferSaga(v, m, from, to, amount, faults).result.Success? ==>
              Total(TransferSaga(v, m, from, to, amount, faults).states) == Total(m)
    ensures TransferSaga(v, m, from, to, amount, faults).result.Failure? ==>
              Total(TransferSaga(v, m, from, to, amount, faults).states) == Total(m) - amount
  {
    var w := Withdraw(v, Lookup(m, from), amount);
    if !faults.withdraw && w.result.Success? {
      var debited := m[from := w.state];
      TotalUpdate(m, from, w.state);
      var d := Deposit(v, Lookup(debited, to), amount);
      TotalUpdate(debited, to, d.state);
      var c := Deposit(v, Lookup(debited, from), amount);
      TotalUpdate(debited, from, c.state);
    }
  }

  /** The saga keeps every balance and rate non-negative. */
  lemma TransferKeepsWellFormed(v: Variant, m: map<string, AccountState>, from: string, to: string,
                                amount: real, faults: TransferFaults)
    requires AllWellFormed(m)
    ensures AllWellFormed(TransferSaga(v, m, from, to, amount, faults).states)
  {
    var w := Withdraw(v, Lookup(m, from), amount);
    if !faults.withdraw && w.result.Success? {
      assert m[from := w.state] == Credit(m, from, -amount);
      CreditKeepsWellFormed(m, from, -amount);
      var debited := m[from := w.state];
      var d := Deposit(v, Lookup(debited, to), amount);
      if !faults.deposit && d.result.Success? {
        assert debited[to := d.state] == Credit(debited, to, amount);
        CreditKeepsWellFormed(debited, to, amount);
      } else if Deposit(v, Lookup(debited, from), amount).result.Success? {
        assert debited[from := Deposit(v, Lookup(debited, from), amount).state] == Credit(debited, from, amount);
        CreditKeepsWellFormed(debited, from, amount);
      }
    }
  }

  /** A transfer to an id that was never activated: the Orleans deposit leg
      is refused, the saga rolls back and reports false; the Service Fabric
      deposit creates the target holding the amount and the transfer succeeds. */
  lemma TransferToUnknownTarget(v: Variant, m: map<string, AccountState>, from: string, to: string, amount: real)
    requires to !in m && to != from
    requires Withdraw(v, Lookup(m, from), amount).result.Success?
    ensures v.FlagEnforcing? ==>
              && TransferSaga(v, m, from, to, amount, NoTransferFaults).result == Success(false)
              && forall x :: Lookup(TransferSaga(v, m, from, to, amount, NoTransferFaults).states, x) == Lookup(m, x)
    ensures v.NoFlag? ==>
              && TransferSaga(v, m, from, to, amount, NoTransferFaults).result == Success(true)
              && Lookup(TransferSaga(v, m, from, to, amount, NoTransferFaults).states, to) == AccountState(false, amount, 0.0)
  {
    if v.FlagEnforcing? {
      TransferRollsBack(v, m, from, to, amount, NoTransferFaults);
    } else {
      TransferCompletes(v, m, from, to, amount, NoTransferFaults);
    }
  }

  /** TransferAsync: the two legs and the compensation as successive grain calls. */
  method Transfer(actors: AccountActors, from: string, to: string, amount: real, faults: TransferFaults)
    returns (r: Result<bool>)
    requires actors.Valid()
    modifies actors
    ensures actors.Valid()
    ensures r == TransferSaga(actors.variant, old(actors.states), from, to, amount, faults).result
    ensures actors.states == TransferSaga(actors.variant, old(actors.states), from, to, amount, faults).states
  {
    var w: Result<real>;
    if faults.withdraw {
      w := Failure(Unknown);
    } else {
      w := actors.Withdraw(from, amount);
    }
    if w.Failure? {
      return Success(false);
    }
    var d: Result<real>;
    if faults.deposit {
      d := Failure(Unknown);
    } else {
      d := actors.Deposit(to, amount);
    }
    if d.Failure? {
      var c: Result<real>;
      if faults.compensate {
        c := Failure(Unknown);
      } else {
        c := actors.Deposit(from, amount);
      }
      if c.Failure? {
        return Failure(c.error);
      }
      return Success(false);
    }
    return Success(true);
  }

  /** DeleteAccountAsync on the stored records `m`. The Orleans transactor
      asks the grain to delete itself and forwards its answer; the Service
      Fabric transactor reads IsActive, deletes the actor and returns what it
      read. Either way the reply is the flag from before the deletion. */
  function DeleteEffect(v: Variant, m: map<string, AccountState>, accountId: string, faults: DeleteFaults): Effect<bool>
  {
    if DeleteFails(v, faults) then Effect(Failure(Unknown), m)
    else Effect(Success(Lookup(m, accountId).active), m - {accountId})
  }

  /** A deletion that goes through forgets the record: the id reads as the
      default again, and its balance leaves the total. */
  lemma DeletionForgetsAccount(v: Variant, m: map<string, AccountState>, accountId: string, faults: DeleteFaults)
    requires !DeleteFails(v, faults)
    ensures Lookup(DeleteEffect(v, m, accountId, faults).states, accountId) == Default
    ensures forall x :: x != accountId ==> Lookup(DeleteEffect(v, m, accountId, faults).states, x) == Lookup(m, x)
    ensures Total(DeleteEffect(v, m, accountId, faults).states) == Total(m) - Lookup(m, accountId).balance
  {
    TotalRemove(m, accountId);
  }

  method DeleteAccount(actors: AccountActors, accountId: string, faults: DeleteFaults)
    returns (r: Result<bool>)
    requires actors.Valid()
    modifies actors
    ensures actors.Valid()
    ensures r == DeleteEffect(actors.variant, old(actors.states), accountId, faults).result
    ensures actors.states == DeleteEffect(actors.variant, old(actors.states), accountId, faults).states
  {
    if actors.variant.FlagEnforcing? {
      if faults.remove {
        return Failure(Unknown);
      }
      r := actors.Delete(accountId);
    } else {
      if faults.probe {
        return Failure(Unknown);
      }
      var existed := actors.IsActive(accountId);
      if faults.remove {
        return Failure(Unknown);
      }
      actors.RemoveActor(accountId);
      r := Success(existed);
    }
  }

  /** The catch block of CreateAccountAsync: delete the account, then raise
      the setup step's error `e` again; a failing deletion raises its own. */
  function Cleanup(v: Variant, m: map<string, AccountState>, accountId: string, e: Error, faults: DeleteFaults): Effect<string>
  {
    var deleted := DeleteEffect(v, m, accountId, faults);
    Effect(Failure(if deleted.result.Failure? then deleted.result.error else e), deleted.states)
  }

  /** CreateAccountAsync on the stored records `m`, for the new id
      `accountId`: activate, deposit the initial balance, set the default
      rate, each step on the record the previous one left; the first step
      that fails hands over to the cleanup. */
  function CreateEffect(v: Variant, m: map<string, AccountState>, accountId: string, initialBalance: real,
                        faults: CreateFaults): Effect<string>
  {
    var activated := m[accountId := Activate(Lookup(m, accountId)).state];
    var d := Deposit(v, Lookup(activated, accountId), initialBalance);
    var deposited := activated[accountId := d.state];
    var s := SetInterestRate(v, Lookup(deposited, accountId), DefaultInterestRate);
    if faults.activate then Cleanup(v, m, accountId, Unknown, faults.cleanup)
    else if faults.deposit then Cleanup(v, activated, accountId, Unknown, faults.cleanup)
    else if d.result.Failure? then Cleanup(v, activated, accountId, d.result.error, faults.cleanup)
    else if faults.setRate then Cleanup(v, deposited, accountId, Unknown, faults.cleanup)
    else if s.result.Failure? then Cleanup(v, deposited, accountId, s.result.error, faults.cleanup)
    else Effect(Success(accountId), deposited[accountId := s.state])
  }

  /** Creation succeeds exactly when no call faults and the initial balance
      is not negative; the account is then active, holds its old balance
      plus the initial one (the initial balance itself for a new id) and
      earns the default rate, and no other record changes. */
  lemma CreationSucceeds(v: Variant, m: map<string, AccountState>, accountId: string, initialBalance: real,
                         faults: CreateFaults)
    ensures CreateEffect(v, m, accountId, initialBalance, faults).result.Success? <==> SetupSucceeds(initialBalance, faults)
    ensures SetupSucceeds(initialBalance, faults) ==>
              && CreateEffect(v, m, accountId, initialBalance, faults).result == Success(accountId)
              && CreateEffect(v, m, accountId, initialBalance, faults).states ==
                   m[accountId := AccountState(true, Lookup(m, accountId).balance + initialBalance, DefaultInterestRate)]
    ensures SetupSucceeds(initialBalance, faults) && accountId !in m ==>
              Lookup(CreateEffect(v, m, accountId, initialBalance, faults).states, accountId) ==
                AccountState(true, initialBalance, DefaultInterestRate)
  {
    if SetupSucceeds(initialBalance, faults) {
      var activated := m[accountId := Activate(Lookup(m, accountId)).state];
      var deposited := activated[accountId := Deposit(v, Lookup(activated, accountId), initialBalance).state];
      assert deposited[accountId := SetInterestRate(v, Lookup(deposited, accountId), DefaultInterestRate).state] ==
               m[accountId := AccountState(true, Lookup(m, accountId).balance + initialBalance, DefaultInterestRate)];
    }
  }

  /** A failed creation whose cleanup goes through deletes the account,
      leaves every other record as it was and raises the failed step's error. */
  lemma FailedCreationCleansUp(v: Variant, m: map<string, AccountState>, accountId: string, initialBalance: real,
                               faults: CreateFaults)
    requires !SetupSucceeds(initialBalance, faults) && !DeleteFails(v, faults.cleanup)
    ensures CreateEffect(v, m, accountId, initialBalance, faults).result == Failure(SetupError(initialBalance, faults))
    ensures CreateEffect(v, m, accountId, initialBalance, faults).states == m - {accountId}
  {
    var activated := m[accountId := Activate(Lookup(m, accountId)).state];
    assert activated - {accountId} == m - {accountId};
    var deposited := activated[accountId := Deposit(v, Lookup(activated, accountId), initialBalance).state];
    assert deposited - {accountId} == m - {accountId};
  }

  /** A failed creation whose cleanup fails raises the cleanup's error and
      may leave the half-built account behind; other accounts never change. */
  lemma FailedCleanupLeavesOthersAlone(v: Variant, m: map<string, AccountState>, accountId: string,
                                       initialBalance: real, faults: CreateFaults)
    requires DeleteFails(v, faults.cleanup)
    ensures CreateEffect(v, m, accountId, initialBalance, faults).result.Failure? ==>
              CreateEffect(v, m, accountId, initialBalance, faults).result.error == Unknown
    ensures forall x :: x != accountId ==>
              Lookup(CreateEffect(v, m, accountId, initialBalance, faults).states, x) == Lookup(m, x)
  {
  }

  /** Creation keeps every balance and rate non-negative. */
  lemma CreationKeepsWellFormed(v: Variant, m: map<string, AccountState>, accountId: string, initialBalance: real,
                                faults: CreateFaults)
    requires AllWellFormed(m)
    ensures AllWellFormed(CreateEffect(v, m, accountId, initialBalance, faults).states)
  {
    var activated := m[accountId := Activate(Lookup(m, accountId)).state];
    assert WellFormed(activated[accountId]);
    var d := Deposit(v, Lookup(activated, accountId), initialBalance);
    var deposited := activated[accountId := d.state];
    assert WellFormed(deposited[accountId]);
    var s := SetInterestRate(v, Lookup(deposited, accountId), DefaultInterestRate);
    assert WellFormed(deposited[accountId := s.state][accountId]);
  }

  /** CreateAccountAsync: the setup calls in turn, then the cleanup on failure. */
  method CreateAccount(actors: AccountActors, accountId: string, initialBalance: real, faults: CreateFaults)
    returns (r: Result<string>)
    requires actors.Valid()
    modifies actors
    ensures actors.Valid()
    ensures r == CreateEffect(actors.variant, old(actors.states), accountId, initialBalance, faults).result
    ensures actors.states == CreateEffect(actors.variant, old(actors.states), accountId, initialBalance, faults).states
  {
    var e: Error;
    var step: Result<()>;
    if faults.activate {
      step := Failure(Unknown);
    } else {
      step := actors.Activate(accountId);
    }
    if step.Success? {
      var deposited: Result<real>;
      if faults.deposit {
        deposited := Failure(Unknown);
      } else {
        deposited := actors.Deposit(accountId, initialBalance);
      }
      if deposited.Success? {
        if faults.setRate {
          step := Failure(Unknown);
        } else {
          step := actors.SetInterestRate(accountId, DefaultInterestRate);
        }
        if step.Success? {
          return Success(accountId);
        }
        e := step.error;
      } else {
        e := deposited.error;
      }
    } else {
      e := step.error;
    }
    var cleanup := DeleteAccount(actors, accountId, faults.cleanup);
    if cleanup.Failure? {
      return Failure(cleanup.error);
    }
    r := Failure(e);
  }

  /** GetAccountBalanceAsync. */
  method GetAccountBalance(actors: AccountActors, accountId: string, fault: bool) returns (r: Result<real>)
    ensures fault ==> r == Failure(Unknown)
    ensures !fault ==> r == GetBalance(actors.variant, actors.Get(accountId))
    ensures !fault && actors.variant.NoFlag? && accountId !in actors.states ==> r == Success(0.0)
    ensures !fault && actors.variant.FlagEnforcing? && accountId !in actors.states ==> r == Failure(Inactive)
  {
    if fault {
      return Failure(Unknown);
    }
    r := actors.GetBalance(accountId);
  }

  /** CheckAccountExists: the account's Active flag, read without changing anything. */
  method CheckAccountExists(actors: AccountActors, accountId: string, fault: bool) returns (r: Result<bool>)
    ensures fault ==> r == Failure(Unknown)
    ensures !fault ==> r == Success(actors.Get(accountId).active)
    ensures !fault && accountId !in actors.states ==> r == Success(false)
  {
    if fault {
      return Failure(Unknown);
    }
    var active := actors.IsActive(accountId);
    r := Success(active);
  }

  /** The first half of the demo client's session in either lineage: two
      accounts of 100, a transfer of 60 that succeeds and a second one that
      the source cannot cover, leaving A with 40 and B with 160. */
  method DemoTransfers(v: Variant) returns (actors: AccountActors, first: Result<bool>, second: Result<bool>)
    ensures fresh(actors) && actors.variant == v && actors.Valid()
    ensures first == Success(true) && second == Success(false)
    ensures actors.states == map["A" := AccountState(true, 40.0, 0.05), "B" := AccountState(true, 160.0, 0.05)]
  {
    actors := new AccountActors(v);
    var idA := CreateAccount(actors, "A", 100.0, NoCreateFaults);
    var idB := CreateAccount(actors, "B", 100.0, NoCreateFaults);
    first := Transfer(actors, "A", "B", 60.0, NoTransferFaults);
    second := Transfer(actors, "A", "B", 60.0, NoTransferFaults);
  }

  /** The whole demo session: after the transfers, a first reading of the
      balances, two interest ticks on each account while the client waits,
      a second reading, then the deletion of B and a last reading. */
  method DemoSession(v: Variant)
    returns (first: Result<bool>, second: Result<bool>, a: Result<real>, b: Result<real>,
             aAccrued: Result<real>, bAccrued: Result<real>, aAfterDelete: Result<real>, bAfterDelete: Result<real>)
    ensures first == Success(true) && second == Success(false)
    ensures a == Success(40.0) && b == Success(160.0)
    ensures aAccrued == Success(44.1) && bAccrued == Success(176.4)
    ensures aAfterDelete == Success(44.1)
    ensures bAfterDelete == if v.FlagEnforcing? then Failure(Inactive) else Success(0.0)
  {
    var actors;
    actors, first, second := DemoTransfers(v);
    a := GetAccountBalance(actors, "A", false);
    b := GetAccountBalance(actors, "B", false);
    var tick := actors.ReceiveReminder("A", ComputeInterestReminderName);
    tick := actors.ReceiveReminder("B", ComputeInterestReminderName);
    tick := actors.ReceiveReminder("A", ComputeInterestReminderName);
    tick := actors.ReceiveReminder("B", ComputeInterestReminderName);
    aAccrued := GetAccountBalance(actors, "A", false);
    bAccrued := GetAccountBalance(actors, "B", false);
    var existed := DeleteAccount(actors, "B", NoDeleteFaults);
    aAfterDelete := GetAccountBalance(actors, "A", false);
    bAfterDelete := GetAccountBalance(actors, "B", false);
  }

  /** The stuck-funds gap: the deposit leg and then the compensation both
      fault, the error escapes, and 60 has left A without reaching B. */
  method StuckFundsSession(v: Variant) returns (r: Result<bool>, a: Result<real>, b: Result<real>)
    ensures r == Failure(Unknown)
    ensures a == Success(40.0) && b == Success(100.0)
  {
    var actors := new AccountActors(v);
    var idA := CreateAccount(actors, "A", 100.0, NoCreateFaults);
    var idB := CreateAccount(actors, "B", 100.0, NoCreateFaults);
    r := Transfer(actors, "A", "B", 60.0, TransferFaults(false, true, true));
    a := GetAccountBalance(actors, "A", false);
    b := GetAccountBalance(actors, "B", false);
  }

  /** A transfer to an id nobody created. The Orleans target is inactive, so
      the saga rolls back; the Service Fabric target springs into existence
      holding the amount. */
  method MistypedTargetSession(v: Variant) returns (r: Result<bool>, a: Result<real>, typo: Result<real>)
    ensures v.FlagEnforcing? ==> r == Success(false) && a == Success(100.0) && typo == Failure(Inactive)
    ensures v.NoFlag? ==> r == Success(true) && a == Success(90.0) && typo == Success(10.0)
  {
    var actors := new AccountActors(v);
    var idA := CreateAccount(actors, "A", 100.0, NoCreateFaults);
    r := Transfer(actors, "A", "nonexistent", 10.0, NoTransferFaults);
    a := GetAccountBalance(actors, "A", false);
    typo := GetAccountBalance(actors, "nonexistent", false);
  }
}
