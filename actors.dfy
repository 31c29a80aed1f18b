/**
 * The population of account actors and their persisted records. The runtime
 * addresses an account by its string id and creates it on first reference, so
 * an id without a stored record behaves as a record holding the defaults:
 * Orleans hands a missing persistent state over as `new AccountState()`, and
 * the Service Fabric actor installs exactly that record when it activates.
 * Each method is one grain call run to completion: it reads the record,
 * changes it in place and writes it back, as the grains do.
 */
module Actors {
  import opened AccountStates
  import opened Accounts

  /** The record stored under `id`, or the default record when there is none. */
  function Lookup(m: map<string, AccountState>, id: string): (s: AccountState)
    ensures id !in m ==> s == Default
    ensures id in m ==> s == m[id]
  {
    if id in m then m[id] else Default
  }

  /** Every stored record satisfies the balance and rate invariant. */
  ghost predicate AllWellFormed(m: map<string, AccountState>) {
    forall id :: id in m ==> WellFormed(m[id])
  }

  ghost function Pick(ids: set<string>): string
    requires ids != {}
  {
    var id :| id in ids; id
  }

  /** The total of all stored balances: the money in the system. */
  ghost function Total(m: map<string, AccountState>): real
    decreases |m|
  {
    if m == map[] then 0.0
    else
      var id := Pick(m.Keys);
      assert (m - {id}).Keys == m.Keys - {id};
      m[id].balance + Total(m - {id})
  }

  /** Any stored record can be taken out of the total first. */
  lemma {:induction false} TotalWithout(m: map<string, AccountState>, id: string)
    requires id in m
    ensures Total(m) == m[id].balance + Total(m - {id})
    decreases |m|
  {
    var p := Pick(m.Keys);
    assert (m - {p}).Keys == m.Keys - {p};
    if p != id {
      assert (m - {id}).Keys == m.Keys - {id};
      TotalWithout(m - {p}, id);
      TotalWithout(m - {id}, p);
      assert m - {p} - {id} == m - {id} - {p};
    }
  }

  /** Replacing one record changes the total by the change of that record's balance. */
  lemma TotalUpdate(m: map<string, AccountState>, id: string, s: AccountState)
    ensures Total(m[id := s]) == Total(m) - Lookup(m, id).balance + s.balance
  {
    TotalWithout(m[id := s], id);
    assert m[id := s] - {id} == m - {id};
    if id in m {
      TotalWithout(m, id);
    } else {
      assert m - {id} == m;
    }
  }

  /** Dropping a record takes its balance out of the total. */
  lemma TotalRemove(m: map<string, AccountState>, id: string)
    ensures Total(m - {id}) == Total(m) - Lookup(m, id).balance
  {
    if id in m {
      TotalWithout(m, id);
    } else {
      assert m - {id} == m;
    }
  }

  class AccountActors {
    /** Which lineage's account logic every actor runs. */
    const variant: Variant
    /** The persisted record of every account that has one. */
    var states: map<string, AccountState>

    constructor (variant: Variant)
      ensures this.variant == variant && states == map[]
      ensures Valid()
    {
      this.variant := variant;
      states := map[];
    }

    /** The record the account `id` sees when it is called. */
    function Get(id: string): AccountState
      reads this
    {
      Lookup(states, id)
    }

    /** The class invariant: every stored balance and rate is non-negative.
        The constructor establishes it and every method that changes a
        record keeps it. */
    ghost predicate Valid()
      reads this
    {
      AllWellFormed(states)
    }

    /** Service Fabric OnActivateAsync: installs a default record only where there is none. */
    method OnActivate(id: string)
      requires Valid()
      modifies this
      ensures Valid()
      ensures states == if id in old(states) then old(states) else old(states)[id := Default]
      ensures forall x :: Get(x) == old(Get(x))
    {
      if id !in states {
        states := states[id := Default];
      }
    }

    /** Orleans ActivateAsync. */
    method Activate(id: string) returns (r: Result<()>)
      requires Valid()
      modifies this
      ensures Valid()
      ensures r == Accounts.Activate(old(Get(id))).result
      ensures states == old(states)[id := Accounts.Activate(old(Get(id))).state]
    {
      var state := Get(id);
      state := state.(active := true);
      states := states[id := state];
      r := Success(());
    }

    /** Orleans IsActive: reads the flag. */
    method IsActive(id: string) returns (r: bool)
      ensures r == Get(id).active
    {
      r := Get(id).active;
    }

    method GetBalance(id: string) returns (r: Result<real>)
      ensures r == Accounts.GetBalance(variant, Get(id))
    {
      var state := Get(id);
      if variant.FlagEnforcing? && !state.active {
        return Failure(Inactive);
      }
      r := Success(state.balance);
    }

    method Withdraw(id: string, amount: real) returns (r: Result<real>)
      requires Valid()
      modifies this
      ensures Valid()
      ensures r == Accounts.Withdraw(variant, old(Get(id)), amount).result
      ensures states == if r.Success? then old(states)[id := Accounts.Withdraw(variant, old(Get(id)), amount).state]
                        else old(states)
    {
      if amount < 0.0 {
        return Failure(InvalidArgument);
      }
      var state := Get(id);
      if variant.FlagEnforcing? && !state.active {
        return Failure(Inactive);
      }
      if amount > state.balance {
        return Failure(InsufficientFunds);
      }
      state := state.(balance := state.balance - amount);
      states := states[id := state];
      r := Success(state.balance);
    }

    method Deposit(id: string, amount: real) returns (r: Result<real>)
      requires Valid()
      modifies this
      ensures Valid()
      ensures r == Accounts.Deposit(variant, old(Get(id)), amount).result
      ensures states == if r.Success? then old(states)[id := Accounts.Deposit(variant, old(Get(id)), amount).state]
                        else old(states)
    {
      if amount < 0.0 {
        return Failure(InvalidArgument);
      }
      var state := Get(id);
      if variant.FlagEnforcing? && !state.active {
        return Failure(Inactive);
      }
      state := state.(balance := state.balance + amount);
      states := states[id := state];
      r := Success(state.balance);
    }

    method GetInterestRate(id: string) returns (r: Result<real>)
      ensures r == Accounts.GetInterestRate(variant, Get(id))
    {
      var state := Get(id);
      if variant.FlagEnforcing? && !state.active {
        return Failure(Inactive);
      }
      r := Success(state.interestRate);
    }

    method SetInterestRate(id: string, rate: real) returns (r: Result<()>)
      requires Valid()
      modifies this
      ensures Valid()
      ensures r == Accounts.SetInterestRate(variant, old(Get(id)), rate).result
      ensures states == if r.Success? then old(states)[id := Accounts.SetInterestRate(variant, old(Get(id)), rate).state]
                        else old(states)
    {
      if rate < 0.0 {
        return Failure(InvalidArgument);
      }
      var state := Get(id);
      if variant.FlagEnforcing? && !state.active {
        return Failure(Inactive);
      }
      state := state.(interestRate := rate);
      states := states[id := state];
      r := Success(());
    }

    /** ComputeInterestAsync, reached only through the reminder. */
    method ComputeInterest(id: string)
      requires Valid()
      modifies this
      ensures Valid()
      ensures Admits(variant, old(Get(id))) ==> states == old(states)[id := Accounts.ComputeInterest(variant, old(Get(id)))]
      ensures !Admits(variant, old(Get(id))) ==> states == old(states)
    {
      var state := Get(id);
      if variant.NoFlag? || state.active {
        InterestNeverShrinks(variant, state);
        state := state.(balance := Compounded(state.balance, state.interestRate));
        states := states[id := state];
      }
    }

    /** ReceiveReminder(Async): the reminder service delivering a tick to `id`. */
    method ReceiveReminder(id: string, name: string) returns (r: Result<()>)
      requires Valid()
      modifies this
      ensures Valid()
      ensures r == Accounts.ReceiveReminder(variant, old(Get(id)), name).result
      ensures states == if r.Success? && Admits(variant, old(Get(id)))
                        then old(states)[id := Accounts.ReceiveReminder(variant, old(Get(id)), name).state]
                        else old(states)
      ensures Get(id) == Accounts.ReceiveReminder(variant, old(Get(id)), name).state
      ensures forall x :: x != id ==> Get(x) == old(Get(x))
    {
      if name == ComputeInterestReminderName {
        ComputeInterest(id);
        r := Success(());
      } else {
        r := Failure(UnknownReminder(name));
      }
    }

    /** Orleans DeleteAsync: ClearStateAsync drops the stored record. */
    method Delete(id: string) returns (r: Result<bool>)
      requires Valid()
      modifies this
      ensures Valid()
      ensures r == Accounts.Delete(old(Get(id))).result
      ensures states == old(states) - {id}
      ensures Get(id) == Accounts.Delete(old(Get(id))).state
    {
      var existed := Get(id).active;
      states := states - {id};
      r := Success(existed);
    }

    /** Service Fabric DeleteActorAsync: the actor and its state go away. */
    method RemoveActor(id: string)
      requires Valid()
      modifies this
      ensures Valid()
      ensures states == old(states) - {id}
      ensures Get(id) == Default
    {
      states := states - {id};
    }
  }
}
