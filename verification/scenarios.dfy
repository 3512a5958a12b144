/**
  The bank and concurrency tests, restated over the model. A concurrent batch
  of calls is read as every sequential order of those calls.
 */
module Scenarios {
  import opened Outcomes
  import opened Customers
  import opened Banks
  import opened Histories

  /** Deposits of 500, 300 and 200 onto an unlocked account holding 1000,
      in any order, all succeed and leave 2000. */
  lemma SimultaneousDeposits(c: Customer, order: seq<Op>)
    requires !c.locked && c.balance == 1000
    requires multiset(order) == multiset{DepositOf(500), DepositOf(300), DepositOf(200)}
    ensures Run(c, order).0.balance == 2000
    ensures forall i :: 0 <= i < |order| ==> Run(c, order).1[i] == Done
  {
    var written := [DepositOf(500), DepositOf(300), DepositOf(200)];
    assert multiset(written) == multiset(order);
    assert written[1..] == [DepositOf(300), DepositOf(200)];
    assert written[1..][1..] == [DepositOf(200)];
    assert written[1..][1..][1..] == [];
    assert SumOf(Taken, written) == 0;
    assert SumOf(Signed, written) == 1000;
    assert AllPositive(written);
    CoveredHistoryOrderIrrelevant(c, written, order);
    CoveredHistorySucceeds(c, written);
  }

  /** Withdrawals of 200, 300 and 100 from an unlocked account holding
      1000, in any order, all succeed and leave 400. */
  lemma SimultaneousWithdrawals(c: Customer, order: seq<Op>)
    requires !c.locked && c.balance == 1000
    requires multiset(order) == multiset{WithdrawalOf(200), WithdrawalOf(300), WithdrawalOf(100)}
    ensures Run(c, order).0.balance == 400
    ensures forall i :: 0 <= i < |order| ==> Run(c, order).1[i] == Done
  {
    var written := [WithdrawalOf(200), WithdrawalOf(300), WithdrawalOf(100)];
    assert multiset(written) == multiset(order);
    assert written[1..] == [WithdrawalOf(300), WithdrawalOf(100)];
    assert written[1..][1..] == [WithdrawalOf(100)];
    assert written[1..][1..][1..] == [];
    assert SumOf(Taken, written) == 600;
    assert SumOf(Signed, written) == -600;
    assert AllPositive(written);
    CoveredHistoryOrderIrrelevant(c, written, order);
    CoveredHistorySucceeds(c, written);
  }

  /** Three withdrawals of 300 from an unlocked account holding 500: the
      first succeeds, the other two fail for insufficient funds, and 200 is
      left. All orders of three equal calls are this one. */
  lemma OverdrawingWithdrawals(c: Customer)
    requires !c.locked && c.balance == 500
    ensures var r := Run(c, [WithdrawalOf(300), WithdrawalOf(300), WithdrawalOf(300)]);
      r == (c.(balance := 200), [Done, Failed(InsufficientFunds), Failed(InsufficientFunds)])
  {
    var w := WithdrawalOf(300);
    var after := c.(balance := 200);
    var refused := Failed(InsufficientFunds);
    assert Apply(c, w) == Step(after, Done);
    assert Apply(after, w) == Step(after, refused);
    assert Run(after, [w]) == (after, [refused]) by {
      assert [w][1..] == [];
      assert [refused] + [] == [refused];
    }
    assert Run(after, [w, w]) == (after, [refused, refused]) by {
      assert [w, w][1..] == [w];
      assert [refused] + [refused] == [refused, refused];
    }
    assert [w, w, w][1..] == [w, w];
    assert [Done] + [refused, refused] == [Done, refused, refused];
  }

  /** On an account whose flag was forced on, deposits and withdrawals all
      fail with `AccountLocked` and the balance stays 1000. */
  lemma OperationsOnLockedAccount()
    ensures var r := Run(Customer("Concurrent User", 1000, true), [DepositOf(100), WithdrawalOf(100), DepositOf(200)]);
      r.0.balance == 1000 && r.1 == [Failed(AccountLocked), Failed(AccountLocked), Failed(AccountLocked)]
  {
  }

  /** A transfer from a registered customer to the same name fails with
      `InvalidOperation` whatever the amount and whether or not that
      customer's lock is held, and nothing changes: the self check comes
      before any locking. */
  lemma SelfTransferAlwaysFails(bank: Bank, name: string, amount: int)
    requires name in bank.customers
    ensures TransferFunds(bank, name, name, amount) == Step(bank, Failed(InvalidOperation))
  {
  }

  /** Registering Alice (1000), Bob (500) and Charlie (1500). */
  lemma TotalOfThreeCustomers()
    ensures var r1 := AddCustomer(NewBank(), "Alice", 1000);
      r1.Ok? &&
      var r2 := AddCustomer(r1.value.0, "Bob", 500);
      r2.Ok? &&
      var r3 := AddCustomer(r2.value.0, "Charlie", 1500);
      r3.Ok? && Total(r3.value.0.customers) == 3000
  {
    var b0 := NewBank();
    AddCustomerPreserves(b0, "Alice", 1000);
    var b1 := AddCustomer(b0, "Alice", 1000).value.0;
    AddCustomerPreserves(b1, "Bob", 500);
    var b2 := AddCustomer(b1, "Bob", 500).value.0;
    AddCustomerPreserves(b2, "Charlie", 1500);
  }

  /** Registering a name twice fails the second time and keeps the first. */
  lemma DuplicateRegistration()
    ensures var r1 := AddCustomer(NewBank(), "Charlie", 500);
      r1.Ok? && AddCustomer(r1.value.0, "Charlie", 700) == Err(DuplicateCustomer("Charlie"))
  {
  }

  /** The bank holding Alice (1000) and Bob (500), as `addCustomer` builds it. */
  function AliceAndBob(): (b: Bank)
    ensures Valid(b) && Total(b.customers) == 1500
  {
    var b0 := NewBank();
    AddCustomerPreserves(b0, "Alice", 1000);
    var b1 := AddCustomer(b0, "Alice", 1000).value.0;
    AddCustomerPreserves(b1, "Bob", 500);
    AddCustomer(b1, "Bob", 500).value.0
  }

  /** Alice sends Bob 200: 800 and 700, total still 1500. */
  lemma TransferThroughBank()
    ensures var r := TransferFunds(AliceAndBob(), "Alice", "Bob", 200);
      && r.outcome == Done
      && GetCustomer(r.state, "Alice") == Ok(Customer("Alice", 800, false))
      && GetCustomer(r.state, "Bob") == Ok(Customer("Bob", 700, false))
      && Total(r.state.customers) == 1500
  {
  }

  /** Unknown sender or recipient: `CustomerNotFound` naming it, nothing
      changes. Asking for more than Alice holds: `InsufficientFunds`. */
  lemma FailedTransfersThroughBank()
    ensures TransferFunds(AliceAndBob(), "NonExistent", "Bob", 100)
      == Step(AliceAndBob(), Failed(CustomerNotFound("NonExistent")))
    ensures TransferFunds(AliceAndBob(), "Alice", "NonExistent", 100)
      == Step(AliceAndBob(), Failed(CustomerNotFound("NonExistent")))
    ensures TransferFunds(AliceAndBob(), "Alice", "Bob", 1500)
      == Step(AliceAndBob(), Failed(InsufficientFunds))
  {
  }

  /** With Alice's flag forced on, a transfer from her fails with
      `AccountLocked`; balances stay, and Bob's lock is left set. */
  lemma TransferFromLockedAccount()
    ensures var b := AliceAndBob();
      var locked := Bank(b.customers["Alice" := Customer("Alice", 1000, true)]);
      var r := TransferFunds(locked, "Alice", "Bob", 100);
      && r.outcome == Failed(AccountLocked)
      && r.state.customers["Alice"] == Customer("Alice", 1000, true)
      && r.state.customers["Bob"] == Customer("Bob", 500, true)
  {
  }

  /** Alice, Bob and Charlie are registered, unlocked, with 1000 each;
      Alice sends Bob 200, Alice sends Charlie 300, Bob sends Charlie 100.
      Every call succeeds and the balances end at 500, 1100 and 1400. */
  lemma SimultaneousTransfers(bank: Bank)
    requires "Alice" in bank.customers && "Bob" in bank.customers && "Charlie" in bank.customers
    requires bank.customers["Alice"] == Customer("Alice", 1000, false)
    requires bank.customers["Bob"] == Customer("Bob", 1000, false)
    requires bank.customers["Charlie"] == Customer("Charlie", 1000, false)
    ensures var r := RunTransfers(bank, [Order("Alice", "Bob", 200), Order("Alice", "Charlie", 300), Order("Bob", "Charlie", 100)]);
      && r.1 == [Done, Done, Done]
      && r.0.customers["Alice"] == Customer("Alice", 500, false)
      && r.0.customers["Bob"] == Customer("Bob", 1100, false)
      && r.0.customers["Charlie"] == Customer("Charlie", 1400, false)
  {
  }
}
