/**
 * The account entity's state machine, one pure step function per grain
 * operation. Each function takes the record the grain holds before the call
 * and gives the reply and the record it holds afterwards. The variant selects
 * the lineage: the Orleans grain refuses balance and rate operations on an
 * inactive record, the Service Fabric actor never looks at the flag.
 */
module Accounts {
  import opened AccountStates

  /** FlagEnforcing is the Orleans account, NoFlag the Service Fabric one. */
  datatype Variant = FlagEnforcing | NoFlag

  /** The only reminder name either grain recognises. */
  const ComputeInterestReminderName: string := "ComputeInterestReminder"

  /** InvalidArgument is the ArgumentException the grains raise for a negative
      amount or rate; Inactive, InsufficientFunds and UnknownReminder are the
      three InvalidOperationException cases; Unknown stands for a fault of the
      runtime or of the remote call itself. */
  datatype Error = InvalidArgument | Inactive | InsufficientFunds | UnknownReminder(name: string) | Unknown

  datatype Result<T> = Success(value: T) | Failure(error: Error)

  /** The reply of one grain operation and the record the grain holds after it. */
  datatype Outcome<T> = Outcome(result: Result<T>, state: AccountState)

  /** The active-flag check passes: always for NoFlag, only on an active record otherwise. */
  predicate Admits(v: Variant, s: AccountState) {
    v.NoFlag? || s.active
  }

  /** ActivateAsync. */
  function Activate(s: AccountState): (o: Outcome<()>)
    ensures o.result.Success? && o.state.active
    ensures o.state.balance == s.balance && o.state.interestRate == s.interestRate
    ensures Admits(FlagEnforcing, o.state)
  {
    Outcome(Success(()), s.(active := true))
  }

  /** GetBalanceAsync: reads the balance; the Orleans grain refuses when inactive. */
  function GetBalance(v: Variant, s: AccountState): (r: Result<real>)
    ensures r.Success? <==> Admits(v, s)
    ensures r.Success? ==> r.value == s.balance
    ensures r.Failure? ==> r.error == Inactive
  {
    if v.FlagEnforcing? && !s.active then Failure(Inactive) else Success(s.balance)
  }

  /** GetInterestRateAsync: reads the rate; the Orleans grain refuses when inactive. */
  function GetInterestRate(v: Variant, s: AccountState): (r: Result<real>)
    ensures r.Success? <==> Admits(v, s)
    ensures r.Success? ==> r.value == s.interestRate
    ensures r.Failure? ==> r.error == Inactive
  {
    if v.FlagEnforcing? && !s.active then Failure(Inactive) else Success(s.interestRate)
  }

  /** WithdrawAsync. The checks run in the order: negative amount, inactive
      record (Orleans only), amount above the balance. */
  function Withdraw(v: Variant, s: AccountState, amount: real): (o: Outcome<real>)
    ensures o.result.Failure? ==> o.state == s
    ensures amount < 0.0 ==> o.result == Failure(InvalidArgument)
    ensures amount >= 0.0 && !Admits(v, s) ==> o.result == Failure(Inactive)
    ensures amount >= 0.0 && Admits(v, s) && amount > s.balance ==> o.result == Failure(InsufficientFunds)
    ensures o.result.Success? <==> 0.0 <= amount <= s.balance && Admits(v, s)
    ensures o.result.Success? ==>
              && o.state.balance == s.balance - amount
              && o.state.balance >= 0.0
              && o.result.value == o.state.balance
              && o.state.active == s.active
              && o.state.interestRate == s.interestRate
  {
    if amount < 0.0 then Outcome(Failure(InvalidArgument), s)
    else if v.FlagEnforcing? && !s.active then Outcome(Failure(Inactive), s)
    else if amount > s.balance then Outcome(Failure(InsufficientFunds), s)
    else
      var s' := s.(balance := s.balance - amount);
      Outcome(Success(s'.balance), s')
  }

  /** DepositAsync: negative amount first, then the inactive record (Orleans only). */
  function Deposit(v: Variant, s: AccountState, amount: real): (o: Outcome<real>)
    ensures o.result.Failure? ==> o.state == s
    ensures amount < 0.0 ==> o.result == Failure(InvalidArgument)
    ensures amount >= 0.0 && !Admits(v, s) ==> o.result == Failure(Inactive)
    ensures o.result.Success? <==> amount >= 0.0 && Admits(v, s)
    ensures o.result.Success? ==>
              && o.state.balance == s.balance + amount
              && o.state.balance >= s.balance
              && o.result.value == o.state.balance
              && o.state.active == s.active
              && o.state.interestRate == s.interestRate
  {
    if amount < 0.0 then Outcome(Failure(InvalidArgument), s)
    else if v.FlagEnforcing? && !s.active then Outcome(Failure(Inactive), s)
    else
      var s' := s.(balance := s.balance + amount);
      Outcome(Success(s'.balance), s')
  }

  /** SetInterestRateAsync: negative rate first, then the inactive record (Orleans only). */
  function SetInterestRate(v: Variant, s: AccountState, rate: real): (o: Outcome<()>)
    ensures o.result.Failure? ==> o.state == s
    ensures rate < 0.0 ==> o.result == Failure(InvalidArgument)
    ensures rate >= 0.0 && !Admits(v, s) ==> o.result == Failure(Inactive)
    ensures o.result.Success? <==> rate >= 0.0 && Admits(v, s)
    ensures o.result.Success? ==>
              o.state.interestRate == rate && o.state.balance == s.balance && o.state.active == s.active
  {
    if rate < 0.0 then Outcome(Failure(InvalidArgument), s)
    else if v.FlagEnforcing? && !s.active then Outcome(Failure(Inactive), s)
    else Outcome(Success(()), s.(interestRate := rate))
  }

  /** `Balance *= 1 + InterestRate`, the one accrual of interest. */
  function Compounded(balance: real, rate: real): real {
    balance * (1.0 + rate)
  }

  /** ComputeInterestAsync: compounds the balance once. The Orleans grain skips
      an inactive record; the Service Fabric actor always compounds. */
  function ComputeInterest(v: Variant, s: AccountState): (s': AccountState)
    ensures !Admits(v, s) ==> s' == s
    ensures Admits(v, s) ==> s'.balance == Compounded(s.balance, s.interestRate)
    ensures s'.active == s.active && s'.interestRate == s.interestRate
  {
    if v.FlagEnforcing? && !s.active then s
    else s.(balance := Compounded(s.balance, s.interestRate))
  }

  /** ReceiveReminder(Async): only the interest reminder is dispatched, any
      other name raises and leaves the record alone. */
  function ReceiveReminder(v: Variant, s: AccountState, name: string): (o: Outcome<()>)
    ensures o.result.Success? <==> name == ComputeInterestReminderName
    ensures o.result.Failure? ==> o.result.error == UnknownReminder(name) && o.state == s
    ensures o.result.Success? ==> o.state == ComputeInterest(v, s)
  {
    if name == ComputeInterestReminderName then Outcome(Success(()), ComputeInterest(v, s))
    else Outcome(Failure(UnknownReminder(name)), s)
  }

  /** DeleteAsync: reports the flag as it was and clears the record, after which
      the Orleans grain refuses to report a balance and the Service Fabric
      actor reports zero. */
  function Delete(s: AccountState): (o: Outcome<bool>)
    ensures o.result == Success(s.active)
    ensures GetBalance(FlagEnforcing, o.state) == Failure(Inactive)
    ensures GetBalance(NoFlag, o.state) == Success(0.0)
    ensures GetInterestRate(NoFlag, o.state) == Success(0.0)
  {
    Outcome(Success(s.active), Default)
  }

  /** Interest accrual never lowers a well-formed balance and keeps it well formed. */
  lemma InterestNeverShrinks(v: Variant, s: AccountState)
    requires WellFormed(s)
    ensures ComputeInterest(v, s).balance >= s.balance
    ensures WellFormed(ComputeInterest(v, s))
  {
    if Admits(v, s) {
      assert s.balance * (1.0 + s.interestRate) == s.balance + s.balance * s.interestRate;
      assert s.balance * s.interestRate >= 0.0;
    }
  }

  /** The interest example: 100 at 5% becomes 105 after one accrual and 110.25
      after two, on an active account in either lineage. */
  lemma InterestExample(v: Variant)
    ensures ComputeInterest(v, AccountState(true, 100.0, 0.05)).balance == 105.0
    ensures ComputeInterest(v, ComputeInterest(v, AccountState(true, 100.0, 0.05))).balance == 110.25
  {
  }

  /** A withdrawal undoes the deposit just made, restoring the whole record,
      provided the balance was not negative to begin with. */
  lemma DepositThenWithdraw(v: Variant, s: AccountState, amount: real)
    requires s.balance >= 0.0
    requires Deposit(v, s, amount).result.Success?
    ensures Withdraw(v, Deposit(v, s, amount).state, amount) == Outcome(Success(s.balance), s)
  {
    var d := Deposit(v, s, amount).state;
    assert d.(balance := d.balance - amount) == s;
  }

  /** A deposit undoes the withdrawal just made: the compensation step of the
      transfer saga restores the source record exactly. */
  lemma WithdrawThenDeposit(v: Variant, s: AccountState, amount: real)
    requires Withdraw(v, s, amount).result.Success?
    ensures Deposit(v, Withdraw(v, s, amount).state, amount) == Outcome(Success(s.balance), s)
  {
  }
}
