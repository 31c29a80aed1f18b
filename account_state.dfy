/**
 * The persisted record of one account. Both lineages declare the same three
 * auto-properties without initializers, so a newly constructed record holds
 * the C# defaults: not active, zero balance, zero interest rate.
 */
module AccountStates {

  /** `active` is the existence marker, `balance` the funds held and
      `interestRate` the fraction added to the balance at each accrual.
      The three fields are independent: a datatype update of one keeps the others. */
  datatype AccountState = AccountState(active: bool, balance: real, interestRate: real)

  /** `new AccountState()`. Its rate is 0, not the 0.05 the transactor installs. */
  const Default: AccountState := AccountState(false, 0.0, 0.0)

  /** What every account operation keeps: neither the balance nor the rate is negative. */
  predicate WellFormed(s: AccountState) {
    s.balance >= 0.0 && s.interestRate >= 0.0
  }
}
