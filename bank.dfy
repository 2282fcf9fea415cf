/**
  ConcreteBank: the shared ledger object. Its fields are updated in place by
  each operation; every method's result and new state are those of the
  corresponding function of Ledger applied to the old state, so the facts
  proved in Ledger hold of the object.
 */
module Banking {
  import L = Ledger

  class ConcreteBank {
    /** Balance per account id. */
    var accounts: map<string, int>
    /** The ids that own a lock (the Lock objects are not modelled). */
    var accountLocks: set<string>
    /** The ids that own a deposit condition (the Condition objects are not modelled). */
    var accountConditions: set<string>

    /** The object's state as a Ledger value. */
    function State(): L.Bank
      reads this
    {
      L.Bank(accounts, accountLocks, accountConditions)
    }

    ghost predicate Valid()
      reads this
    {
      L.Valid(State())
    }

    constructor ()
      ensures Valid()
      ensures State() == L.Empty()
    {
      accounts := map[];
      accountLocks := {};
      accountConditions := {};
    }

    method AddAccount(accountId: string, initBalance: int) returns (ok: bool)
      requires Valid()
      modifies this
      ensures Valid()
      ensures ok == (accountId !in old(accounts))
      ensures ok == L.AddAccount(old(State()), accountId, initBalance).ok
      ensures State() == L.AddAccount(old(State()), accountId, initBalance).bank
    {
      if accountId in accounts {
        return false;
      }
      accounts := accounts[accountId := initBalance];
      accountLocks := accountLocks + {accountId};
      accountConditions := accountConditions + {accountId};
      return true;
    }

    method Deposit(accountId: string, amount: int) returns (ok: bool)
      requires Valid()
      modifies this
      ensures Valid()
      ensures ok == (accountId in old(accounts))
      ensures ok == L.Deposit(old(State()), accountId, amount).ok
      ensures State() == L.Deposit(old(State()), accountId, amount).bank
    {
      if accountId !in accounts {
        return false;
      }
      accounts := accounts[accountId := accounts[accountId] + amount];
      return true;
    }

    /**
      The wait is an environment step: reread is the balance that other
      threads leave in the account while this one waits. waits counts the
      waits performed.
     */
    method Withdraw(accountId: string, amount: int, reread: int) returns (ok: bool, ghost waits: nat)
      requires Valid()
      modifies this
      ensures Valid()
      ensures waits == if L.MustWait(old(State()), accountId, amount) then 1 else 0
      ensures ok == L.Withdraw(old(State()), accountId, amount, reread).ok
      ensures State() == L.Withdraw(old(State()), accountId, amount, reread).bank
    {
      waits := 0;
      if accountId !in accounts {
        return false, waits;
      }
      var balance := accounts[accountId];
      if balance < amount {
        // wait(timeoutMillis): other threads run; they leave reread in the account
        accounts := accounts[accountId := reread];
        waits := waits + 1;
        balance := accounts[accountId];
      }
      if balance >= amount {
        accounts := accounts[accountId := balance - amount];
        return true, waits;
      }
      return false, waits;
    }

    method Transfer(srcAccount: string, dstAccount: string, amount: int, reread: int) returns (ok: bool)
      requires Valid()
      modifies this
      ensures Valid()
      ensures ok == L.Transfer(old(State()), srcAccount, dstAccount, amount, reread).ok
      ensures State() == L.Transfer(old(State()), srcAccount, dstAccount, amount, reread).bank
    {
      var withdrawn;
      ghost var waits;
      withdrawn, waits := Withdraw(srcAccount, amount, reread);
      if withdrawn {
        ok := Deposit(dstAccount, amount);
      } else {
        ok := false;
      }
    }

    function GetBalance(accountId: string): (r: L.Option<int>)
      reads this
      ensures r.Some? <==> accountId in accounts
      ensures r.Some? ==> r.value == accounts[accountId]
    {
      L.GetBalance(State(), accountId)
    }

    /** doLottery run sequentially: deposit miner(id) into each listed account, in list order. */
    method DoLottery(accountIds: seq<string>, miner: string -> int)
      requires Valid()
      modifies this
      ensures Valid()
      ensures State() == L.Lottery(old(State()), accountIds, miner)
    {
      var i := 0;
      while i < |accountIds|
        invariant 0 <= i <= |accountIds|
        invariant State() == L.Lottery(old(State()), accountIds[..i], miner)
        invariant Valid()
      {
        var id := accountIds[i];
        var reward := miner(id);
        var _ := Deposit(id, reward);
        assert accountIds[..i + 1][..i] == accountIds[..i];
        i := i + 1;
      }
      assert accountIds[..i] == accountIds;
    }
  }
}
