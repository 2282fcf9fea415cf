/**
  The sequential effect of the operations of ConcreteBank, as a state machine
  over values. A Bank holds the balance map and the account ids that own a
  lock and a deposit condition (the lock and condition objects themselves are
  abstracted to their keys). Each operation returns whether it succeeded
  together with the state it leaves.
 */
module Ledger {
  import opened Sums

  datatype Option<T> = None | Some(value: T)

  datatype Bank = Bank(accounts: map<string, int>, accountLocks: set<string>, accountConditions: set<string>)

  /** The boolean an operation returns, with the state it leaves. */
  datatype Outcome = Outcome(ok: bool, bank: Bank)

  /** Every account, and only an account, owns a lock and a condition. */
  predicate Valid(b: Bank)
  {
    b.accountLocks == b.accounts.Keys && b.accountConditions == b.accounts.Keys
  }

  /** Nothing but the balances may differ between b and b'. */
  predicate SameKeys(b: Bank, b': Bank)
  {
    b'.accounts.Keys == b.accounts.Keys
    && b'.accountLocks == b.accountLocks
    && b'.accountConditions == b.accountConditions
  }

  /** The state of a freshly constructed bank. */
  function Empty(): (b: Bank)
    ensures Valid(b)
    ensures forall id :: GetBalance(b, id) == None
  {
    Bank(map[], {}, {})
  }

  /** getBalance: the balance of id, None where Java's getBalance (ConcurrentHashMap.get) returns null. */
  function GetBalance(b: Bank, id: string): (r: Option<int>)
    ensures r.Some? <==> id in b.accounts
    ensures r.Some? ==> r.value == b.accounts[id]
  {
    if id in b.accounts then Some(b.accounts[id]) else None
  }

  /** addAccount: put-if-absent of the balance, registering a lock and a condition for a new id. */
  function AddAccount(b: Bank, id: string, initBalance: int): (r: Outcome)
    ensures r.ok <==> GetBalance(b, id) == None
    ensures r.ok ==> GetBalance(r.bank, id) == Some(initBalance)
    ensures r.ok ==> r.bank.accounts.Keys == b.accounts.Keys + {id}
    ensures r.ok ==> r.bank.accountLocks == b.accountLocks + {id}
    ensures r.ok ==> r.bank.accountConditions == b.accountConditions + {id}
    ensures forall k :: k != id ==> GetBalance(r.bank, k) == GetBalance(b, k)
    ensures !r.ok ==> r.bank == b
    ensures Valid(b) ==> Valid(r.bank)
  {
    if id in b.accounts then Outcome(false, b)
    else Outcome(true, Bank(b.accounts[id := initBalance], b.accountLocks + {id}, b.accountConditions + {id}))
  }

  /** deposit: adds amount to an existing balance; an unknown id is refused. */
  function Deposit(b: Bank, id: string, amount: int): (r: Outcome)
    ensures r.ok <==> id in b.accounts
    ensures r.ok ==> GetBalance(r.bank, id) == Some(b.accounts[id] + amount)
    ensures forall k :: k != id ==> GetBalance(r.bank, k) == GetBalance(b, k)
    ensures !r.ok ==> r.bank == b
    ensures SameKeys(b, r.bank)
  {
    if id !in b.accounts then Outcome(false, b)
    else Outcome(true, b.(accounts := b.accounts[id := b.accounts[id] + amount]))
  }

  /** withdraw has to wait exactly when the account exists and its balance is short of amount. */
  predicate MustWait(b: Bank, id: string, amount: int)
  {
    id in b.accounts && b.accounts[id] < amount
  }

  /**
    The state withdraw re-reads after its single wait. While it waits the
    monitor is released and other threads may move this account's balance;
    reread is the balance they leave there. Without a wait nothing changes.
   */
  function AfterWait(b: Bank, id: string, amount: int, reread: int): (s: Bank)
    ensures MustWait(b, id, amount) ==> GetBalance(s, id) == Some(reread)
    ensures !MustWait(b, id, amount) ==> s == b
    ensures forall k :: k != id ==> GetBalance(s, k) == GetBalance(b, k)
    ensures SameKeys(b, s)
  {
    if MustWait(b, id, amount) then b.(accounts := b.accounts[id := reread]) else b
  }

  /**
    withdraw: refuses an unknown id; otherwise reads the balance, waits once
    if it is short, re-reads once, and decrements only if the balance it
    holds now covers amount.
   */
  function Withdraw(b: Bank, id: string, amount: int, reread: int): (r: Outcome)
    ensures id !in b.accounts ==> r == Outcome(false, b)
    ensures r.ok <==> id in b.accounts && (b.accounts[id] >= amount || reread >= amount)
    ensures r.ok && !MustWait(b, id, amount) ==> GetBalance(r.bank, id) == Some(b.accounts[id] - amount)
    ensures r.ok && MustWait(b, id, amount) ==> GetBalance(r.bank, id) == Some(reread - amount)
    ensures r.ok ==> id in r.bank.accounts && r.bank.accounts[id] >= 0
    ensures !r.ok ==> r.bank == AfterWait(b, id, amount, reread)
    ensures forall k :: k != id ==> GetBalance(r.bank, k) == GetBalance(b, k)
    ensures SameKeys(b, r.bank)
  {
    if id !in b.accounts then Outcome(false, b)
    else
      var s := AfterWait(b, id, amount, reread);
      var balance := s.accounts[id];
      if balance >= amount then Outcome(true, s.(accounts := s.accounts[id := balance - amount]))
      else Outcome(false, s)
  }

  /** transfer: withdraw from src, then, only if that succeeded, deposit into dst; nothing is refunded. */
  function Transfer(b: Bank, src: string, dst: string, amount: int, reread: int): (r: Outcome)
    ensures r.ok <==> Withdraw(b, src, amount, reread).ok && dst in b.accounts
    ensures !Withdraw(b, src, amount, reread).ok ==> r.bank == AfterWait(b, src, amount, reread)
    ensures dst !in b.accounts ==> r.bank == Withdraw(b, src, amount, reread).bank
    ensures r.ok && src != dst ==>
      GetBalance(r.bank, src) == Some(AfterWait(b, src, amount, reread).accounts[src] - amount)
      && GetBalance(r.bank, dst) == Some(b.accounts[dst] + amount)
    ensures r.ok && src == dst ==> GetBalance(r.bank, src) == Some(AfterWait(b, src, amount, reread).accounts[src])
    ensures forall k :: k != src && k != dst ==> GetBalance(r.bank, k) == GetBalance(b, k)
    ensures SameKeys(b, r.bank)
  {
    var w := Withdraw(b, src, amount, reread);
    if !w.ok then w else Deposit(w.bank, dst, amount)
  }

  /** doLottery, read sequentially: deposit miner(id) for each id of the list, in order. */
  function Lottery(b: Bank, ids: seq<string>, miner: string -> int): (r: Bank)
    ensures SameKeys(b, r)
    decreases |ids|
  {
    if |ids| == 0 then b
    else
      var last := ids[|ids| - 1];
      Deposit(Lottery(b, ids[..|ids| - 1], miner), last, miner(last)).bank
  }

  // ---------------------------------------------------------------------------
  // Creation

  /** Of two creations of one fresh id, in either order, the first wins and keeps its balance. */
  lemma CreationExclusive(b: Bank, id: string, b1: int, b2: int)
    requires GetBalance(b, id) == None
    ensures AddAccount(b, id, b1).ok
    ensures !AddAccount(AddAccount(b, id, b1).bank, id, b2).ok
    ensures GetBalance(AddAccount(AddAccount(b, id, b1).bank, id, b2).bank, id) == Some(b1)
  {
  }

  // ---------------------------------------------------------------------------
  // Deposit

  /** Deposits into existing accounts commute, so their interleaving does not matter. */
  lemma DepositsCommute(b: Bank, x: string, a1: int, y: string, a2: int)
    requires x in b.accounts && y in b.accounts
    ensures Deposit(Deposit(b, x, a1).bank, y, a2) == Deposit(Deposit(b, y, a2).bank, x, a1)
  {
  }

  /** Deposits of the amounts amts into the one account id, in order. */
  function Deposits(b: Bank, id: string, amts: seq<int>): (r: Bank)
    ensures SameKeys(b, r)
    decreases |amts|
  {
    if |amts| == 0 then b
    else Deposit(Deposits(b, id, amts[..|amts| - 1]), id, amts[|amts| - 1]).bank
  }

  /** Successive deposits into one account leave its balance raised by their sum, and nothing else changed; an unknown id changes nothing. */
  lemma {:induction false} DepositsBalance(b: Bank, id: string, amts: seq<int>)
    ensures Deposits(b, id, amts)
         == if id in b.accounts then b.(accounts := b.accounts[id := b.accounts[id] + SumSeq(amts)]) else b
    decreases |amts|
  {
    if |amts| != 0 {
      DepositsBalance(b, id, amts[..|amts| - 1]);
    }
  }

  /** Deposits into one account give the same state in whatever order they are applied. */
  lemma DepositsOrderIrrelevant(b: Bank, id: string, amts1: seq<int>, amts2: seq<int>)
    requires multiset(amts1) == multiset(amts2)
    ensures Deposits(b, id, amts1) == Deposits(b, id, amts2)
  {
    DepositsBalance(b, id, amts1);
    DepositsBalance(b, id, amts2);
    SumSeqPermutation(amts1, amts2);
  }

  /** A deposit into an existing account raises the total by exactly amount. */
  lemma DepositTotal(b: Bank, id: string, amount: int)
    requires id in b.accounts
    ensures Total(Deposit(b, id, amount).bank.accounts) == Total(b.accounts) + amount
  {
    TotalUpdate(b.accounts, id, b.accounts[id] + amount);
  }

  // ---------------------------------------------------------------------------
  // Withdraw

  /** In the purely sequential view nobody changes the balance during the wait, so a short balance fails and changes nothing. */
  lemma WithdrawSequential(b: Bank, id: string, amount: int)
    requires id in b.accounts
    ensures Withdraw(b, id, amount, b.accounts[id]).ok <==> b.accounts[id] >= amount
    ensures !Withdraw(b, id, amount, b.accounts[id]).ok ==> Withdraw(b, id, amount, b.accounts[id]).bank == b
  {
  }

  /** A successful withdraw lowers the total by exactly amount, measured from the state it re-read. */
  lemma WithdrawTotal(b: Bank, id: string, amount: int, reread: int)
    requires Withdraw(b, id, amount, reread).ok
    ensures Total(Withdraw(b, id, amount, reread).bank.accounts) == Total(AfterWait(b, id, amount, reread).accounts) - amount
  {
    var s := AfterWait(b, id, amount, reread);
    TotalUpdate(s.accounts, id, s.accounts[id] - amount);
  }

  // ---------------------------------------------------------------------------
  // Transfer

  /** A transfer that succeeds moves money without creating or destroying any (src and dst may coincide). */
  lemma TransferConserves(b: Bank, src: string, dst: string, amount: int, reread: int)
    requires Transfer(b, src, dst, amount, reread).ok
    ensures Total(Transfer(b, src, dst, amount, reread).bank.accounts) == Total(AfterWait(b, src, amount, reread).accounts)
    ensures !MustWait(b, src, amount) ==> Total(Transfer(b, src, dst, amount, reread).bank.accounts) == Total(b.accounts)
  {
    var w := Withdraw(b, src, amount, reread);
    WithdrawTotal(b, src, amount, reread);
    DepositTotal(w.bank, dst, amount);
  }

  /** A withdraw that succeeds into an unknown dst destroys amount: false is returned and nothing is refunded. */
  lemma TransferLosesFunds(b: Bank, src: string, dst: string, amount: int, reread: int)
    requires Withdraw(b, src, amount, reread).ok && dst !in b.accounts
    ensures !Transfer(b, src, dst, amount, reread).ok
    ensures GetBalance(Transfer(b, src, dst, amount, reread).bank, src) == Some(AfterWait(b, src, amount, reread).accounts[src] - amount)
    ensures Total(Transfer(b, src, dst, amount, reread).bank.accounts) == Total(AfterWait(b, src, amount, reread).accounts) - amount
  {
    WithdrawTotal(b, src, amount, reread);
  }

  /** In the sequential view a transfer whose withdraw fails changes nothing. */
  lemma TransferFailedWithdraw(b: Bank, src: string, dst: string, amount: int)
    requires src in b.accounts && b.accounts[src] < amount
    ensures !Transfer(b, src, dst, amount, b.accounts[src]).ok
    ensures Transfer(b, src, dst, amount, b.accounts[src]).bank == b
  {
  }

  // ---------------------------------------------------------------------------
  // Lottery

  /** After the lottery each account has gained miner(id) once per occurrence of id; unknown ids add nothing. */
  lemma {:induction false} LotteryBalance(b: Bank, ids: seq<string>, miner: string -> int, k: string)
    ensures GetBalance(Lottery(b, ids, miner), k)
         == if k in b.accounts then Some(b.accounts[k] + miner(k) * multiset(ids)[k]) else None
    decreases |ids|
  {
    if |ids| != 0 {
      var prefix, last := ids[..|ids| - 1], ids[|ids| - 1];
      var p := Lottery(b, prefix, miner);
      LotteryBalance(b, prefix, miner, k);
      assert ids == prefix + [last];
      assert multiset(ids)[k] == multiset(prefix)[k] + (if k == last then 1 else 0);
      assert Lottery(b, ids, miner) == Deposit(p, last, miner(last)).bank;
      if k == last && k in b.accounts {
        MulSucc(miner(k), multiset(prefix)[k]);
      }
    }
  }

  lemma MulSucc(x: int, c: int)
    ensures x * c + x == x * (c + 1)
  {
  }

  /** The whole balance map after the lottery, and nothing else changes. */
  lemma LotteryEffect(b: Bank, ids: seq<string>, miner: string -> int)
    ensures Lottery(b, ids, miner)
         == b.(accounts := map k | k in b.accounts :: b.accounts[k] + miner(k) * multiset(ids)[k])
  {
    var r := Lottery(b, ids, miner);
    var m := map k | k in b.accounts :: b.accounts[k] + miner(k) * multiset(ids)[k];
    assert r.accounts.Keys == m.Keys;
    forall k | k in m
      ensures r.accounts[k] == m[k]
    {
      LotteryBalance(b, ids, miner, k);
    }
    assert r.accounts == m;
  }

  /** The order in which the per-account deposits land does not matter, only how often each id is listed. */
  lemma LotteryOrderIrrelevant(b: Bank, ids1: seq<string>, ids2: seq<string>, miner: string -> int)
    requires multiset(ids1) == multiset(ids2)
    ensures Lottery(b, ids1, miner) == Lottery(b, ids2, miner)
  {
    LotteryEffect(b, ids1, miner);
    LotteryEffect(b, ids2, miner);
  }

  /** When every listed id is an account, the lottery adds to the total exactly the rewards the miner paid. */
  lemma LotteryAccountTotal(b: Bank, ids: seq<string>, miner: string -> int)
    requires forall i :: 0 <= i < |ids| ==> ids[i] in b.accounts
    ensures Total(Lottery(b, ids, miner).accounts) == Total(b.accounts) + MinedSum(ids, miner)
    decreases |ids|
  {
    if |ids| != 0 {
      var prefix, last := ids[..|ids| - 1], ids[|ids| - 1];
      LotteryAccountTotal(b, prefix, miner);
      DepositTotal(Lottery(b, prefix, miner), last, miner(last));
    }
  }

  /** Sum of the rewards the miner hands out for ids. */
  function MinedSum(ids: seq<string>, miner: string -> int): int
    decreases |ids|
  {
    if |ids| == 0 then 0 else MinedSum(ids[..|ids| - 1], miner) + miner(ids[|ids| - 1])
  }

  // ---------------------------------------------------------------------------
  // Every operation, and every sequence of them

  datatype Op =
    | AddAccountOp(id: string, initBalance: int)
    | DepositOp(id: string, amount: int)
    | WithdrawOp(id: string, amount: int, reread: int)
    | TransferOp(src: string, dst: string, amount: int, reread: int)
    | LotteryOp(ids: seq<string>, miner: string -> int)
    | GetBalanceOp(id: string)

  /** The state one operation leaves. */
  function Apply(b: Bank, op: Op): (r: Bank)
    ensures Valid(b) ==> Valid(r)
    ensures b.accounts.Keys <= r.accounts.Keys
    ensures !op.AddAccountOp? ==> r.accounts.Keys == b.accounts.Keys
    ensures op.AddAccountOp? ==> r.accounts.Keys == b.accounts.Keys + {op.id}
  {
    match op
    case AddAccountOp(id, init) => AddAccount(b, id, init).bank
    case DepositOp(id, amount) => Deposit(b, id, amount).bank
    case WithdrawOp(id, amount, reread) => Withdraw(b, id, amount, reread).bank
    case TransferOp(src, dst, amount, reread) => Transfer(b, src, dst, amount, reread).bank
    case LotteryOp(ids, miner) => Lottery(b, ids, miner)
    case GetBalanceOp(_) => b
  }

  /** The state a sequence of operations leaves, applied in order. */
  function Run(b: Bank, ops: seq<Op>): Bank
    decreases |ops|
  {
    if |ops| == 0 then b else Run(Apply(b, ops[0]), ops[1..])
  }

  /** No sequence of operations removes an account or breaks the lock and condition registration. */
  lemma {:induction false} RunPreserves(b: Bank, ops: seq<Op>)
    requires Valid(b)
    ensures Valid(Run(b, ops))
    ensures b.accounts.Keys <= Run(b, ops).accounts.Keys
    decreases |ops|
  {
    if |ops| != 0 {
      RunPreserves(Apply(b, ops[0]), ops[1..]);
    }
  }

  /** Every reachable state satisfies the invariant. */
  lemma ReachableValid(ops: seq<Op>)
    ensures Valid(Run(Empty(), ops))
  {
    RunPreserves(Empty(), ops);
  }

  // ---------------------------------------------------------------------------
  // Scenarios

  /** alice holds 100 and withdraws 150; during the wait 100 is deposited; the withdraw succeeds and leaves 50. */
  lemma AliceScenario()
    ensures
      var b := AddAccount(Empty(), "alice", 100).bank;
      var reread := Deposit(b, "alice", 100).bank.accounts["alice"];
      var w := Withdraw(b, "alice", 150, reread);
      w.ok && GetBalance(w.bank, "alice") == Some(50)
  {
  }

  /** A lottery over A, B, C paying 5, 7 and 3 deposits exactly those amounts. */
  lemma LotteryScenario(miner: string -> int)
    requires miner("A") == 5 && miner("B") == 7 && miner("C") == 3
    ensures
      var b := AddAccount(AddAccount(AddAccount(Empty(), "A", 0).bank, "B", 0).bank, "C", 0).bank;
      var r := Lottery(b, ["A", "B", "C"], miner);
      GetBalance(r, "A") == Some(5) && GetBalance(r, "B") == Some(7) && GetBalance(r, "C") == Some(3)
  {
    var b := AddAccount(AddAccount(AddAccount(Empty(), "A", 0).bank, "B", 0).bank, "C", 0).bank;
    LotteryBalance(b, ["A", "B", "C"], miner, "A");
    LotteryBalance(b, ["A", "B", "C"], miner, "B");
    LotteryBalance(b, ["A", "B", "C"], miner, "C");
  }
}
