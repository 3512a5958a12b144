# Bank accounts with per-account locks: a Dafny model

This project models the balance bookkeeping of a small bank. The bank has
two classes:

- a `Customer` holds a name, a balance and a lock flag, and offers
  `deposit`, `withdraw` and `transfer`;
- a `Bank` maps customer names to customers and offers `addCustomer`,
  `getCustomer`, `getTotalBalance` and `transferFunds`.

The model is a sequential state machine in which every operation is one
atomic step. An account is an immutable `Customer(name, balance, locked)`
value, and the bank is a `map<string, Customer>`. Each state-changing operation returns
the new state together with how the call ended (`Step(state, outcome)`). A
failed call can still change the state, because a transfer that fails on a
held lock leaves the other account's lock set.

Modules:

- `Outcomes` (outcomes.dfy): the error variants and the `Result`/`Step` wrappers.
- `Names` (names.dfy): the name order used to sort a transfer's two accounts. It is the lexicographic order on character codes; the lemmas show that it is irreflexive, asymmetric and connected.
- `Customers` (customers.dfy): the customer record, its lock, `deposit`, `withdraw`, the lock order and `transfer`.
- `Banks` (banks.dfy): the registry, its invariant, the balance total and `transferFunds`.
- `Histories` (histories.dfy): runs of several calls one after another. A batch of concurrent calls is read as every sequential order of the same calls.
- `Scenarios` (scenarios.dfy): the bank and concurrency tests, stated over the model.

Behaviour that the model reproduces because the code does it:

- `transfer` never checks the sign of the amount. A zero amount is not
  rejected. A negative amount is not rejected either. It passes the funds
  check whenever the sender's balance is at least the amount, which always
  holds for a sender that is not overdrawn, and then moves money from the
  recipient to the sender, which can leave the recipient with a negative
  balance. An overdrawn sender whose balance is below the negative amount
  gets `InsufficientFunds` instead. So the non-negativity results
  assume `amount >= 0`.
- `transfer` acquires both locks with `Promise.all` before its `try` block.
  If one account is already locked, the other account still gets locked,
  and nothing releases it. After such an `AccountLocked` failure both flags
  are set and both balances are unchanged.
- `deposit` and `withdraw` check the amount before they take the lock. A
  non-positive amount is therefore reported as `InvalidAmount` even on a
  locked account.
- `addCustomer` checks for a duplicate name before the constructor checks
  the deposit. A duplicate name with a negative deposit is therefore
  reported as `DuplicateCustomer`.

Lock acquisition is abstracted as follows. When the flag is already set,
the source polls every 10 ms and gives up after 500 ms. In a sequential run
nothing can clear the flag in the meantime, so the model fails at once with
`AccountLocked`.

`LockOrder` models only the array that `transfer` sorts by name, and
`LockOrderIgnoresDirection` shows that this array is the same whichever
account sends. The model does not establish deadlock freedom. The source
requests both locks at once, so a transfer can hold the account sorted
second while it waits for the first. Waiting is bounded by the 500 ms
timeout, not by the order.

## Model

| member | source | states |
|---|---|---|
| Customers.NewCustomer | src/models/Customer.ts:19-24 | A negative initial deposit is refused with `InvalidAmount`. Otherwise the new account has the given name, a balance equal to the deposit, and no lock. |
| Customers.Lock | src/models/Customer.ts:45-56 | Locking fails with `AccountLocked` exactly when the flag is already set. Otherwise the flag becomes set and the name and balance stay the same. |
| Customers.Unlock | src/models/Customer.ts:61-63 | Releasing always clears the flag and keeps the name and balance. |
| Customers.LockUnlockRoundTrip | src/models/Customer.ts:45-63 | On a free account, locking then unlocking gives back the same account. |
| Customers.Deposit | src/models/Customer.ts:70-82 | A non-positive amount fails with `InvalidAmount` and changes nothing, even when the account is locked. A locked account fails with `AccountLocked` and changes nothing, so the flag stays set. The call succeeds exactly when the amount is positive and the account is free. On success the balance rises by exactly the amount and the lock ends free. A non-negative balance stays non-negative. |
| Customers.Withdraw | src/models/Customer.ts:90-105 | The checks run in this order: amount, then lock, then funds. If the balance is below the amount, the call fails with `InsufficientFunds`, and since the lock is released the account is exactly as before. The call succeeds exactly when the amount is positive, the account is free and the balance covers the amount. On success the balance falls by the amount, stays non-negative, and the lock ends free. |
| Customers.DepositThenWithdraw | src/models/Customer.ts:70-105 | On a free account that is not overdrawn, withdrawing an amount just deposited succeeds and gives back the original account. |
| Customers.LockOrder | src/models/Customer.ts:120-122 | The lock order is a permutation of the two accounts, sorted by name. When the names are equal the sort is stable, so the sender comes first. |
| Customers.LockOrderIgnoresDirection | src/models/Customer.ts:120-122 | For two accounts with different names, the sorted array is the same whichever account sends, and the account whose name comes first is placed first. |
| Customers.AcquireAll | src/models/Customer.ts:124-125 | Acquiring every lock in a list leaves every account locked on both paths. It succeeds exactly when every account was free. Otherwise it fails with `AccountLocked` and releases nothing. |
| Customers.Transfer | src/models/Customer.ts:114-139 | A self-transfer fails with `InvalidOperation` before any locking and changes nothing. The call fails with `AccountLocked` exactly when either account was locked, and then both end locked with their balances unchanged. With both accounts free and too little money, it fails with `InsufficientFunds` and both accounts are exactly as before. It succeeds exactly when the accounts differ, both are free and the sender covers the amount. On success the sender is debited, the recipient is credited and both locks are free. The amount's sign is never rejected. Names and the combined balance are always preserved. |
| Customers.TransferKeepsBalancesNonNegative | src/models/Customer.ts:127-134 | With a non-negative amount and solvent accounts, no transfer leaves either balance negative. |
| Customers.TransferRoundTrip | src/models/Customer.ts:114-139 | After a successful transfer, sending the same amount back succeeds and restores both accounts, provided the recipient started solvent. |
| Customers.NegativeTransferReversesDirection | src/models/Customer.ts:130-134 | A transfer of -50 from Alice (100) to Bob (20) succeeds and leaves Alice with 150 and Bob with -30. |
| Customers.FailedTransferLeavesFreeAccountLocked | src/models/Customer.ts:124-138 | For every locked sender, free recipient and amount, the transfer fails with `AccountLocked`, leaves the sender as it was, and leaves the recipient locked with its balance unchanged. |
| Names.PrecedesIrreflexive | src/models/Customer.ts:120-122 | No name sorts before itself. |
| Names.PrecedesAsymmetric | src/models/Customer.ts:120-122 | Two names never sort before each other both ways. |
| Names.PrecedesConnected | src/models/Customer.ts:120-122 | Of two different names, one always sorts before the other. |
| Banks.NewBank | src/models/Bank.ts:11-13 | A new bank has no customers. It is valid and solvent, its total is 0, and every lookup fails with `CustomerNotFound`. |
| Banks.AddCustomer | src/models/Bank.ts:22-29 | A name that is already present fails with `DuplicateCustomer`, before the deposit check. A new name with a negative deposit fails with `InvalidAmount`. The call succeeds exactly otherwise. On success it adds exactly one entry, under the given name, holding the given deposit unlocked, returns that customer, and leaves every other entry unchanged. |
| Banks.AddCustomerPreserves | src/models/Bank.ts:22-29 | A registration preserves the rule that every key equals its customer's name, preserves solvency, and raises the total by exactly the initial deposit. |
| Banks.GetCustomer | src/models/Bank.ts:37-43 | A lookup fails with `CustomerNotFound(name)` exactly when the name is absent. Otherwise it returns the stored customer, which in a valid registry carries that name. |
| Banks.AddThenGet | src/models/Bank.ts:22-43 | A customer just added is found under its name with its initial deposit and no lock. |
| Banks.TotalRemove | src/models/Bank.ts:49-55 | The sum of balances can be split at any entry, so it does not depend on the order in which the map is iterated. |
| Banks.TotalInsert | src/models/Bank.ts:49-55 | Adding a new entry adds its balance to the total. |
| Banks.TotalUpdate | src/models/Bank.ts:49-55 | Replacing one entry changes the total by the difference between the old and new balances. |
| Banks.GetTotalBalance | src/models/Bank.ts:49-55 | The loop returns the sum of the balances of all stored customers. |
| Banks.TransferFunds | src/models/Bank.ts:64-72 | The sender's name is resolved first, then the recipient's. If either is missing, the call fails with `CustomerNotFound` naming it and changes nothing. If both names are the same, it fails with `InvalidOperation` and changes nothing. Otherwise the outcome and the two new entries are exactly those of the customer transfer, and nobody else changes. Every failure except `AccountLocked` leaves the bank unchanged. |
| Banks.TransferFundsSucceeds | src/models/Bank.ts:69-71 | Between two different free customers whose sender covers the amount, the call succeeds. The sender is debited by exactly the amount, the recipient is credited by it, and no other entry changes. |
| Banks.TransferFundsConservesTotal | src/models/Bank.ts:64-72 | A transfer never changes the total, whatever the amount and however it ends. |
| Banks.TransferFundsPreserves | src/models/Bank.ts:64-72 | A transfer keeps every key equal to its customer's name. With a non-negative amount it also keeps every balance non-negative. |
| Histories.RunAccountsForEverySuccess | src/models/Customer.ts:70-105 | After any sequence of deposits and withdrawals, the final balance is the initial balance plus the successful deposits minus the successful withdrawals, so no update is lost. The name never changes. |
| Histories.RunStaysSolvent | src/models/Customer.ts:90-105 | From a non-negative balance, no sequence of deposits and withdrawals ends negative. |
| Histories.RunOnLockedAccount | tests/concurrency.test.ts:64-82 | On a locked account, every call with a positive amount fails with `AccountLocked` and the account does not change. |
| Histories.CoveredHistorySucceeds | src/models/Customer.ts:70-105 | When the starting balance covers all the withdrawals, every call succeeds and the account ends free with the net change applied. |
| Histories.SumOfPermutation | tests/concurrency.test.ts:7-29 | A sum over a sequence of calls does not depend on their order. |
| Histories.CoveredHistoryOrderIrrelevant | tests/concurrency.test.ts:7-29 | Every reordering of a covered sequence of calls ends in the same account, with every call succeeding. |
| Histories.RunTransfersConservesTotal | tests/concurrency.test.ts:31-45 | No sequence of bank transfers changes the total of all balances. |
| Histories.RunTransfersPreserves | src/models/Bank.ts:64-72 | A sequence of transfers keeps the registry invariant. With no negative amount it also keeps every balance non-negative. |
| Scenarios.SimultaneousDeposits | tests/concurrency.test.ts:7-17 | Deposits of 500, 300 and 200 onto 1000, in any order, all succeed and leave 2000. |
| Scenarios.SimultaneousWithdrawals | tests/concurrency.test.ts:19-29 | Withdrawals of 200, 300 and 100 from 1000, in any order, all succeed and leave 400. |
| Scenarios.OverdrawingWithdrawals | tests/concurrency.test.ts:47-62 | Three withdrawals of 300 from 500 give one success and two `InsufficientFunds` failures, and leave 200. |
| Scenarios.OperationsOnLockedAccount | tests/concurrency.test.ts:64-82 | On a locked account, deposit 100, withdraw 100 and deposit 200 all fail with `AccountLocked`, and the balance stays 1000. |
| Scenarios.SelfTransferAlwaysFails | src/models/Customer.ts:114-117 | A bank transfer from a registered customer to the same name fails with `InvalidOperation` for any amount, whether that customer's lock is held or free, and the bank is unchanged. |
| Scenarios.TotalOfThreeCustomers | tests/bank.test.ts:40-46 | Registering Alice (1000), Bob (500) and Charlie (1500) succeeds and gives a total of 3000. |
| Scenarios.DuplicateRegistration | tests/bank.test.ts:22-27 | Registering Charlie a second time fails with `DuplicateCustomer`. |
| Scenarios.AliceAndBob | tests/bank.test.ts:48-50 | Registering Alice (1000) and Bob (500) gives a valid bank with a total of 1500. |
| Scenarios.TransferThroughBank | tests/bank.test.ts:48-58 | Transferring 200 from Alice to Bob succeeds and leaves Alice 800, Bob 700 and a total of 1500. |
| Scenarios.FailedTransfersThroughBank | tests/bank.test.ts:60-80 | An unknown sender or recipient gives `CustomerNotFound` naming it. Overdrawing gives `InsufficientFunds`. In each case the bank is unchanged. |
| Scenarios.TransferFromLockedAccount | tests/bank.test.ts:82-93 | With Alice locked, a transfer from her fails with `AccountLocked`. Both balances stay, and Bob is left locked. |
| Scenarios.SimultaneousTransfers | tests/concurrency.test.ts:31-45 | With Alice, Bob and Charlie at 1000 each, the three transfers in the written order all succeed and leave 500, 1100 and 1400. |

## Left out

- Timing is not modelled. This covers `Date.now`, the `setTimeout` polling, the 500 ms lock timeout, the 10 ms retry interval and the 10 ms simulated delay inside each critical section. Acquiring a lock whose flag is set fails at once with `AccountLocked`. This matches a lock held longer than the timeout, which is the situation the tests set up.
- Interleavings of `Promise.all` and `Promise.allSettled` are not modelled. Every operation is atomic, and a concurrent batch is read as its sequential orders. A caller that wins a lock late is covered, as a later position in such an order. Two behaviours are lost:
  - Under heavy contention a call can wait more than 500 ms for a lock that is free in every sequential order, and then fail with `AccountLocked`.
  - Two opposite transfers can each hold one account while polling for the other. For example, `alice.transfer(1, bob)` takes Bob while Alice is busy; once Alice is released, `bob.transfer(1, alice)` takes Alice before the first transfer polls again. Both time out with `AccountLocked` and leave both flags set. In every sequential order of the same calls, each transfer gets both locks.
- Balances and amounts are unbounded integers, not JavaScript floating-point `number`s. Rounding, `NaN` and infinities are not modelled.
- `localeCompare` depends on the locale, and it is only a total preorder: it returns 0 for distinct but canonically equivalent names such as "\u00e9" and "e\u0301", which are different keys of the bank's map. The model replaces it with the lexicographic order on character codes, a strict order. Such ties are not modelled. For tied names the source's stable sort keeps `[this, recipient]`, so its lock order then depends on the direction of the transfer.
- Object identity (`recipient === this`) is not modelled directly. `Customers.Transfer` takes a `same` flag instead. `Banks.TransferFunds` sets it to `fromName == toName`, because every registration constructs a fresh customer.
- Shared references are not modelled. `addCustomer` and `getCustomer` return a reference to the stored customer. The model returns the customer's value, so a change made through a returned reference outside the bank's operations is not represented.
- Exceptions are simplified. The four exception classes in `src/exceptions/` and the plain `Error`s become variants of `Outcomes.Error`. The plain `Error`s for a non-positive deposit or withdrawal and for a negative initial deposit become `InvalidAmount`; the one for a transfer to oneself becomes `InvalidOperation`. Message texts are dropped, except the customer name carried by `DuplicateCustomer` and `CustomerNotFound`.
- The `name` and `balance` getters become fields of the `Customer` datatype.
- Scenarios.SimultaneousTransfers: is proved for the written order of the three transfers only, not all six orders. For every order and every outcome, `Histories.RunTransfersConservesTotal` states that the total is conserved.
