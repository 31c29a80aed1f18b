/**
 * Runs of account operations on one record. Each grain call is one atomic
 * step (the runtime lets no two calls on one account interleave), so the life
 * of an account is a sequence of commands applied in order.
 */
module Histories {
  import opened AccountStates
  import A = Accounts

  /** The operations that can change an account's record. */
  datatype Command =
    | Activate
    | Withdraw(amount: real)
    | Deposit(amount: real)
    | SetInterestRate(rate: real)
    | Reminder(name: string)
    | Delete

  /** The record after one command, whether it succeeds or fails. */
  function Apply(v: A.Variant, s: AccountState, c: Command): AccountState {
    match c
    case Activate => A.Activate(s).state
    case Withdraw(amount) => A.Withdraw(v, s, amount).state
    case Deposit(amount) => A.Deposit(v, s, amount).state
    case SetInterestRate(rate) => A.SetInterestRate(v, s, rate).state
    case Reminder(name) => A.ReceiveReminder(v, s, name).state
    case Delete => A.Delete(s).state
  }

  /** The record after a sequence of commands, applied first to last. */
  function Replay(v: A.Variant, s: AccountState, cs: seq<Command>): AccountState
    decreases |cs|
  {
    if cs == [] then s else Replay(v, Apply(v, s, cs[0]), cs[1..])
  }

  /** The balance, rate and reminder commands: everything but Activate and
      Delete. They are also all the Service Fabric account itself implements,
      having no ActivateAsync and no DeleteAsync. */
  predicate BalanceOrRateCommand(c: Command) {
    c.Withdraw? || c.Deposit? || c.SetInterestRate? || c.Reminder?
  }

  /** Every command keeps a record well formed: the negative-input checks, the
      amount-against-balance guard and a non-negative rate see to it. */
  lemma ApplyKeepsWellFormed(v: A.Variant, s: AccountState, c: Command)
    requires WellFormed(s)
    ensures WellFormed(Apply(v, s, c))
  {
    if c.Reminder? && c.name == A.ComputeInterestReminderName {
      A.InterestNeverShrinks(v, s);
    }
  }

  /** Balance and rate stay non-negative over any run of commands. */
  lemma {:induction false} ReplayKeepsWellFormed(v: A.Variant, s: AccountState, cs: seq<Command>)
    requires WellFormed(s)
    ensures WellFormed(Replay(v, s, cs))
    decreases |cs|
  {
    if cs != [] {
      ApplyKeepsWellFormed(v, s, cs[0]);
      ReplayKeepsWellFormed(v, Apply(v, s, cs[0]), cs[1..]);
    }
  }

  /** The Service Fabric account never writes its Active field. */
  lemma {:induction false} ServiceFabricNeverWritesActive(s: AccountState, cs: seq<Command>)
    requires forall i :: 0 <= i < |cs| ==> BalanceOrRateCommand(cs[i])
    ensures Replay(A.NoFlag, s, cs).active == s.active
    decreases |cs|
  {
    if cs != [] {
      ServiceFabricNeverWritesActive(Apply(A.NoFlag, s, cs[0]), cs[1..]);
    }
  }

  /** So a lazily created Service Fabric account stays inactive whatever it is
      asked to do, and its balance and rate stay non-negative. */
  lemma ServiceFabricAccountStaysInactive(cs: seq<Command>)
    requires forall i :: 0 <= i < |cs| ==> BalanceOrRateCommand(cs[i])
    ensures !Replay(A.NoFlag, Default, cs).active
    ensures WellFormed(Replay(A.NoFlag, Default, cs))
  {
    ServiceFabricNeverWritesActive(Default, cs);
    ReplayKeepsWellFormed(A.NoFlag, Default, cs);
  }

  /** On an inactive Orleans account every balance, rate and interest
      operation is refused or skipped: until it is activated (or deleted),
      its record does not change. */
  lemma {:induction false} InactiveAccountIsFrozen(s: AccountState, cs: seq<Command>)
    requires !s.active
    requires forall i :: 0 <= i < |cs| ==> BalanceOrRateCommand(cs[i])
    ensures Replay(A.FlagEnforcing, s, cs) == s
    decreases |cs|
  {
    if cs != [] {
      assert Apply(A.FlagEnforcing, s, cs[0]) == s;
      InactiveAccountIsFrozen(s, cs[1..]);
    }
  }

  /** In particular a record the Orleans grain has never activated keeps the
      default values: zero balance, zero rate. */
  lemma NeverActivatedOrleansAccount(cs: seq<Command>)
    requires forall i :: 0 <= i < |cs| ==> BalanceOrRateCommand(cs[i])
    ensures Replay(A.FlagEnforcing, Default, cs) == Default
    ensures A.GetBalance(A.FlagEnforcing, Replay(A.FlagEnforcing, Default, cs)) == A.Failure(A.Inactive)
  {
    InactiveAccountIsFrozen(Default, cs);
  }

  /** Replaying a concatenation is replaying the parts in turn. */
  lemma {:induction false} ReplayAppend(v: A.Variant, s: AccountState, xs: seq<Command>, ys: seq<Command>)
    ensures Replay(v, s, xs + ys) == Replay(v, Replay(v, s, xs), ys)
    decreases |xs|
  {
    if xs != [] {
      assert (xs + ys)[0] == xs[0];
      assert (xs + ys)[1..] == xs[1..] + ys;
      ReplayAppend(v, Apply(v, s, xs[0]), xs[1..], ys);
    } else {
      assert xs + ys == ys;
    }
  }

  /** Delete returns a record to its default whatever came before, so a
      history ending in a deletion leaves the same record as no history. */
  lemma DeleteForgetsHistory(v: A.Variant, s: AccountState, cs: seq<Command>)
    ensures Replay(v, s, cs + [Delete]) == Default
  {
    ReplayAppend(v, s, cs, [Delete]);
  }

  /** The commands the ledger identity speaks of: deposits and withdrawals. */
  predicate LedgerCommand(c: Command) {
    c.Deposit? || c.Withdraw?
  }

  /** The sum of the deposit amounts of a run that pass the argument check. */
  function DepositTotal(cs: seq<Command>): real
    decreases |cs|
  {
    if cs == [] then 0.0
    else (if cs[0].Deposit? && cs[0].amount >= 0.0 then cs[0].amount else 0.0) + DepositTotal(cs[1..])
  }

  /** The amounts the withdrawals of a run actually take out: each one is
      judged against the record the commands before it have left. */
  function Withdrawn(v: A.Variant, s: AccountState, cs: seq<Command>): real
    decreases |cs|
  {
    if cs == [] then 0.0
    else
      var c := cs[0];
      (if c.Withdraw? && A.Withdraw(v, s, c.amount).result.Success? then c.amount else 0.0)
        + Withdrawn(v, Apply(v, s, c), cs[1..])
  }

  /** The ledger identity: on a record whose flag check passes (any Service
      Fabric record, an active Orleans one), after any run of deposits and
      withdrawals in any order the balance is the initial balance plus every
      valid deposit minus every withdrawal that went through. */
  lemma {:induction false} BalanceIsLedger(v: A.Variant, s: AccountState, cs: seq<Command>)
    requires A.Admits(v, s)
    requires forall i :: 0 <= i < |cs| ==> LedgerCommand(cs[i])
    ensures Replay(v, s, cs).balance == s.balance + DepositTotal(cs) - Withdrawn(v, s, cs)
    decreases |cs|
  {
    if cs != [] {
      BalanceIsLedger(v, Apply(v, s, cs[0]), cs[1..]);
    }
  }
}
