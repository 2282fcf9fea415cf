# ConcreteBank ledger, modelled in Dafny

`ConcreteBank` is a shared ledger object: a map from account id to an integer
balance. Alongside it sit a lock and a deposit condition per account. Its
operations are `addAccount`, `deposit`, `withdraw` (blocking, with a timeout),
`transfer`, `getBalance` and `doLottery`, which pays a miner-computed reward
into each listed account. The real object coordinates threads with
`synchronized`, `wait` and `notifyAll`. This model covers only the sequential
effect each operation has on the ledger.

- `sums.dfy` (module `Sums`): `Total`, the sum of all balances, and the lemma
  that replacing one balance changes the total by exactly the difference;
  `SumSeq`, the sum of a sequence of amounts, and the lemma that it does not
  depend on their order.
- `ledger.dfy` (module `Ledger`): the state machine on values. A `Bank` holds
  the balances plus the set of ids that own a lock and the set that own a
  condition; the lock and condition objects are reduced to their keys. Each
  operation is a function that returns the operation's boolean together with
  the new `Bank`. Its contract states the frame: what changes, and that
  nothing else does. The lemmas relate several operations: creation
  exclusivity, deposits commuting and summing, how transfers conserve or destroy money,
  the per-account effect of the lottery and its order independence, and the
  key-set invariant over any sequence of operations.
- `bank.dfy` (module `Banking`): class `ConcreteBank` with the fields
  `accounts`, `accountLocks` and `accountConditions`. Its methods update these
  in place as the Java methods do. Each method's `ensures` ties its result
  and new state to the matching `Ledger` function of the old state.
  `DoLottery` is a loop whose invariant is `Ledger.Lottery` on the prefix
  already processed.

The wait inside `withdraw` is an environment step. While a thread waits, the
monitor is released, and other threads may change the account's balance.
The parameter `reread` is the balance they leave there. `withdraw` waits
at most once and re-reads once: there is no retry loop. It succeeds exactly
when the balance it first reads, or failing that the single re-read, covers
`amount`. In the purely sequential reading nobody runs during the wait, so
`reread` is the unchanged balance (`Ledger.WithdrawSequential`).

`transfer` is a withdraw followed, only if it succeeded, by a deposit. When
the destination does not exist, the withdrawn amount is not refunded; the
money is destroyed and `false` is returned (`Ledger.TransferLosesFunds`).

## Model

| member | source | states |
|---|---|---|
| Ledger.Empty | src/ConcreteBank.java:18-22 | a new bank has no accounts and satisfies the lock/condition invariant |
| Ledger.GetBalance | src/ConcreteBank.java:194-197 | Some(balance) exactly for an existing id, None (Java's null) otherwise |
| Ledger.AddAccount | src/ConcreteBank.java:24-41 | succeeds iff the id is absent; on success the id's balance is initBalance, the id joins the account, lock and condition key sets, and every other balance is unchanged; on failure nothing changes; the invariant is preserved |
| Ledger.Deposit | src/ConcreteBank.java:43-57 | succeeds iff the id exists; on success the balance becomes old + amount; every other account is unchanged; an unknown id changes nothing; key sets unchanged |
| Ledger.AfterWait | src/ConcreteBank.java:95-102 | the wait happens only when the balance is short; it then installs the re-read balance for that id and nothing else; with no wait the state is untouched |
| Ledger.Withdraw | src/ConcreteBank.java:83-111 | unknown id: false, nothing changes; succeeds iff the first read or the one re-read covers amount; the new balance is first read − amount (no wait) or re-read − amount (after the wait), and is never negative; on failure the withdraw itself changes nothing beyond the wait; other accounts and key sets unchanged |
| Ledger.Transfer | src/ConcreteBank.java:183-191 | true iff the withdraw succeeds and dst exists; on success src holds its post-wait balance − amount and dst its balance + amount (src == dst: the post-wait balance), and every other account is unchanged; a failed withdraw leaves the post-wait state; with dst unknown the state is the withdraw's, so no refund; key sets unchanged |
| Ledger.Lottery | src/ConcreteBank.java:206-235 | depositing each listed id's reward, in order, never changes the account, lock or condition key sets |
| Ledger.CreationExclusive | src/ConcreteBank.java:25-40 | of two creations of one fresh id, the first succeeds, the second fails, and the balance is the first caller's |
| Ledger.DepositsCommute | src/ConcreteBank.java:51-54 | two deposits into existing accounts give the same result in either order |
| Ledger.Deposits | src/ConcreteBank.java:43-57 | a sequence of deposits into one account, applied in order, never changes the key sets |
| Ledger.DepositsBalance | src/ConcreteBank.java:51-54 | N deposits a1..aN into an existing account starting at B leave B + (a1 + … + aN) there and every other account unchanged; an unknown id changes nothing |
| Ledger.DepositsOrderIrrelevant | src/ConcreteBank.java:51-54 | any reordering of the deposits into one account leaves the same state |
| Ledger.DepositTotal | src/ConcreteBank.java:52 | a deposit into an existing account raises the total of all balances by exactly amount |
| Ledger.WithdrawSequential | src/ConcreteBank.java:95-110 | if no other thread runs during the wait, withdraw succeeds iff balance ≥ amount, and a failure changes nothing |
| Ledger.WithdrawTotal | src/ConcreteBank.java:104-107 | a successful withdraw lowers the total by exactly amount, measured from the re-read state |
| Ledger.TransferConserves | src/ConcreteBank.java:183-186 | a successful transfer preserves the total of all balances, against the original state when no wait happened |
| Ledger.TransferLosesFunds | src/ConcreteBank.java:183-188 | withdraw succeeds and dst is unknown: transfer returns false, src drops by amount, and the total drops by amount |
| Ledger.TransferFailedWithdraw | src/ConcreteBank.java:183-191 | in the sequential reading, a transfer whose withdraw fails returns false and changes nothing |
| Ledger.LotteryBalance | src/ConcreteBank.java:206-235 | afterwards each existing account holds old balance + miner(id) × (occurrences of id in the list); ids that are not accounts stay absent |
| Ledger.LotteryEffect | src/ConcreteBank.java:206-235 | the whole state after the lottery: those balances, same keys, lock and condition sets unchanged |
| Ledger.LotteryOrderIrrelevant | src/ConcreteBank.java:204-230 | lists with the same multiset of ids give the same state, so the order in which the threads' deposits land does not matter |
| Ledger.LotteryAccountTotal | src/ConcreteBank.java:206-235 | when every listed id is an account, the total grows by exactly the sum of the rewards |
| Ledger.Apply | src/ConcreteBank.java:24-236 | every operation preserves the lock/condition invariant and never removes an account; only addAccount adds one, and only its id |
| Ledger.RunPreserves | src/ConcreteBank.java:26-34 | any sequence of operations preserves the invariant and never removes an account |
| Ledger.ReachableValid | src/ConcreteBank.java:18-34 | every state reachable from a new bank satisfies the invariant |
| Ledger.AliceScenario | src/ConcreteBank.java:92-107 | alice at 100 withdraws 150 and 100 is deposited during the wait: the withdraw succeeds and leaves 50 |
| Ledger.LotteryScenario | src/ConcreteBank.java:206-235 | a lottery over A, B, C paying 5, 7, 3 leaves exactly those balances, visible to getBalance |
| Banking.ConcreteBank.constructor | src/ConcreteBank.java:18-22 | the new object's state is the empty bank, and the invariant holds |
| Banking.ConcreteBank.AddAccount | src/ConcreteBank.java:24-41 | returns true iff the id was absent; new fields are Ledger.AddAccount of the old ones; invariant kept |
| Banking.ConcreteBank.Deposit | src/ConcreteBank.java:43-57 | returns true iff the id exists; new fields are Ledger.Deposit of the old ones; invariant kept |
| Banking.ConcreteBank.Withdraw | src/ConcreteBank.java:83-111 | waits exactly once when the balance is short and never otherwise; result and new fields are Ledger.Withdraw of the old ones |
| Banking.ConcreteBank.Transfer | src/ConcreteBank.java:158-192 | calls Withdraw, then Deposit only on success; result and new fields are Ledger.Transfer of the old ones |
| Banking.ConcreteBank.GetBalance | src/ConcreteBank.java:194-197 | Some(balance) exactly for an existing id, None otherwise |
| Banking.ConcreteBank.DoLottery | src/ConcreteBank.java:199-236 | the loop deposits miner(id) for each listed id in turn; new fields are Ledger.Lottery of the old ones |

## Left out

- Threads, `synchronized`, `wait(timeoutMillis)` and `notifyAll`: the model is sequential, and each operation is one atomic step. `Valid` (every account owns a lock and a condition) therefore holds between operations only. In the Java, `addAccount`'s `putIfAbsent` and its two `put`s are separate steps, so a concurrent reader can see an account that does not yet have a lock or a condition. `doLottery`'s fan-out and join become one loop. `Ledger.LotteryOrderIrrelevant` shows that the order of the deposits does not matter.
- The `timeoutMillis` parameter of `withdraw` and `transfer`. A positive value bounds how long the wait lasts, which this model does not measure. `wait(0)` waits with no time limit until some deposit notifies, so a real `withdraw` can block forever; the model always returns. A negative value makes `wait` throw `IllegalArgumentException`, which the `InterruptedException` handler does not catch, so `withdraw` and `transfer` throw instead of returning false; the model has no such case.
- Banking.ConcreteBank.Withdraw: the environment step during the wait changes only the withdrawn account's balance. Changes other threads make meanwhile to other accounts, or new accounts they create, are not modelled.
- The `InterruptedException` paths of `withdraw` and `doLottery` (a `false` return after a stack trace, and an abandoned join): runtime and I/O behaviour.
- The `Lock` and `Condition` objects, and `synchronized (accID)` around `miner.mine`: only the key sets of `accountLocks` and `accountConditions` are kept.
- The commented-out per-account-lock versions of `deposit`, `withdraw` and `transfer`: dead code.
- `Miner`: its implementation is not part of this model. It is a total function `string -> int` passed to `DoLottery`.
- Java `Integer` overflow and null unboxing: balances are unbounded integers, and `getBalance`'s null is `None`.
