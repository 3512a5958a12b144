/**
  Sequential histories: deposits and withdrawals on one customer, and
  transfers through the bank, each call taken as one atomic step. A batch
  of concurrent calls is read here as the sequential orders of the same
  calls; the lemmas speak about every such order at once. Interleavings
  that no sequential order produces (a lock wait that times out, two
  transfers each holding one of the other's locks) are outside this
  reading.
 */
module Histories {
  import opened Outcomes
  import opened Customers
  import opened Banks

  datatype Op = DepositOf(amount: int) | WithdrawalOf(amount: int)

  function Apply(c: Customer, op: Op): Step<Customer>
  {
    match op
    case DepositOf(a) => Deposit(c, a)
    case WithdrawalOf(a) => Withdraw(c, a)
  }

  /** Run `ops` one after another from `c`; the final account and the
      outcome of each call, in call order. */
  function Run(c: Customer, ops: seq<Op>): (r: (Customer, seq<Outcome>))
    ensures |r.1| == |ops|
    decreases |ops|
  {
    if |ops| == 0 then (c, [])
    else
      var first := Apply(c, ops[0]);
      var rest := Run(first.state, ops[1..]);
      (rest.0, [first.outcome] + rest.1)
  }

  /** The sum of `f` over the operations. */
  function SumOf(f: Op -> int, ops: seq<Op>): int
    decreases |ops|
  {
    if |ops| == 0 then 0 else f(ops[0]) + SumOf(f, ops[1..])
  }

  /** How an operation moves the balance when it succeeds. */
  function Signed(op: Op): int
  {
    match op
    case DepositOf(a) => a
    case WithdrawalOf(a) => -a
  }

  /** What an operation takes out when it succeeds. */
  function Taken(op: Op): int
  {
    match op
    case DepositOf(_) => 0
    case WithdrawalOf(a) => a
  }

  /** The balance change the successful calls of a history account for. */
  function Net(ops: seq<Op>, outcomes: seq<Outcome>): int
    requires |outcomes| == |ops|
    decreases |ops|
  {
    if |ops| == 0 then 0
    else (if outcomes[0] == Done then Signed(ops[0]) else 0) + Net(ops[1..], outcomes[1..])
  }

  predicate AllPositive(ops: seq<Op>)
  {
    forall i :: 0 <= i < |ops| ==> ops[i].amount > 0
  }

  /** No lost updates: whatever the order and however each call ends, the
      final balance is the initial one plus the successful deposits minus
      the successful withdrawals; the name never changes. */
  lemma {:induction false} RunAccountsForEverySuccess(c: Customer, ops: seq<Op>)
    ensures Run(c, ops).0.balance == c.balance + Net(ops, Run(c, ops).1)
    ensures Run(c, ops).0.name == c.name
    decreases |ops|
  {
    if |ops| > 0 {
      var first := Apply(c, ops[0]);
      RunAccountsForEverySuccess(first.state, ops[1..]);
      assert (Run(c, ops).1)[1..] == Run(first.state, ops[1..]).1;
    }
  }

  /** Withdrawals never overdraw: from a non-negative balance every
      history ends non-negative. */
  lemma {:induction false} RunStaysSolvent(c: Customer, ops: seq<Op>)
    requires c.balance >= 0
    ensures Run(c, ops).0.balance >= 0
    decreases |ops|
  {
    if |ops| > 0 {
      RunStaysSolvent(Apply(c, ops[0]).state, ops[1..]);
    }
  }

  /** A held lock refuses every call with a positive amount and nothing
      changes, the flag included. */
  lemma {:induction false} RunOnLockedAccount(c: Customer, ops: seq<Op>)
    requires c.locked && AllPositive(ops)
    ensures Run(c, ops).0 == c
    ensures forall i :: 0 <= i < |ops| ==> Run(c, ops).1[i] == Failed(AccountLocked)
    decreases |ops|
  {
    if |ops| > 0 {
      RunOnLockedAccount(c, ops[1..]);
    }
  }

  lemma {:induction false} SumOfNonNegative(ops: seq<Op>)
    requires AllPositive(ops)
    ensures SumOf(Taken, ops) >= 0
    decreases |ops|
  {
    if |ops| > 0 {
      SumOfNonNegative(ops[1..]);
    }
  }

  /** When the starting balance covers every withdrawal in the history,
      every call succeeds and the account ends unlocked with the net
      change applied. */
  lemma {:induction false} CoveredHistorySucceeds(c: Customer, ops: seq<Op>)
    requires !c.locked && AllPositive(ops) && c.balance >= SumOf(Taken, ops)
    ensures Run(c, ops).0 == Customer(c.name, c.balance + SumOf(Signed, ops), false)
    ensures forall i :: 0 <= i < |ops| ==> Run(c, ops).1[i] == Done
    decreases |ops|
  {
    if |ops| > 0 {
      SumOfNonNegative(ops[1..]);
      var first := Apply(c, ops[0]);
      assert first.outcome == Done;
      CoveredHistorySucceeds(first.state, ops[1..]);
    }
  }

  lemma {:induction false} SumOfConcat(f: Op -> int, a: seq<Op>, b: seq<Op>)
    ensures SumOf(f, a + b) == SumOf(f, a) + SumOf(f, b)
    decreases |a|
  {
    if |a| == 0 {
      assert a + b == b;
    } else {
      assert (a + b)[1..] == a[1..] + b;
      SumOfConcat(f, a[1..], b);
    }
  }

  /** A sum over a history does not depend on the order of its calls. */
  lemma {:induction false} SumOfPermutation(f: Op -> int, xs: seq<Op>, ys: seq<Op>)
    requires multiset(xs) == multiset(ys)
    ensures SumOf(f, xs) == SumOf(f, ys)
    decreases |xs|
  {
    if |xs| == 0 {
      assert |ys| == |multiset(ys)| == 0;
    } else {
      var x := xs[0];
      assert x in multiset(ys);
      var i :| 0 <= i < |ys| && ys[i] == x;
      var before, after := ys[..i], ys[i + 1..];
      var rest := before + after;
      assert ys == before + ([x] + after);
      assert multiset(ys) == multiset(before) + multiset{x} + multiset(after);
      assert multiset(xs) == multiset{x} + multiset(xs[1..]) by {
        assert xs == [x] + xs[1..];
      }
      assert multiset(rest) == multiset(before) + multiset(after);
      assert multiset(xs[1..]) == multiset(xs) - multiset{x};
      assert multiset(rest) == multiset(ys) - multiset{x};
      SumOfPermutation(f, xs[1..], rest);
      SumOfConcat(f, before, [x] + after);
      SumOfConcat(f, before, after);
      assert ([x] + after)[1..] == after;
    }
  }

  /** Any reordering of a covered history of positive amounts ends in the
      same account state with every call succeeding. */
  lemma {:induction false} CoveredHistoryOrderIrrelevant(c: Customer, ops: seq<Op>, reordered: seq<Op>)
    requires !c.locked && AllPositive(ops) && c.balance >= SumOf(Taken, ops)
    requires multiset(reordered) == multiset(ops)
    ensures Run(c, reordered).0 == Run(c, ops).0
    ensures forall i :: 0 <= i < |reordered| ==> Run(c, reordered).1[i] == Done
  {
    SumOfPermutation(Taken, ops, reordered);
    SumOfPermutation(Signed, ops, reordered);
    forall i | 0 <= i < |reordered|
      ensures reordered[i].amount > 0
    {
      assert reordered[i] in multiset(ops);
    }
    CoveredHistorySucceeds(c, ops);
    CoveredHistorySucceeds(c, reordered);
  }

  /** One `transferFunds` call. */
  datatype Order = Order(fromName: string, toName: string, amount: int)

  /** Run the transfers one after another; the final bank and the outcome
      of each call, in call order. */
  function RunTransfers(bank: Bank, orders: seq<Order>): (r: (Bank, seq<Outcome>))
    ensures |r.1| == |orders|
    decreases |orders|
  {
    if |orders| == 0 then (bank, [])
    else
      var o := orders[0];
      var first := TransferFunds(bank, o.fromName, o.toName, o.amount);
      var rest := RunTransfers(first.state, orders[1..]);
      (rest.0, [first.outcome] + rest.1)
  }

  /** Transfers conserve total funds: no history of transfers, in any
      order and with any outcomes, changes the sum of all balances. */
  lemma {:induction false} RunTransfersConservesTotal(bank: Bank, orders: seq<Order>)
    ensures Total(RunTransfers(bank, orders).0.customers) == Total(bank.customers)
    decreases |orders|
  {
    if |orders| > 0 {
      var o := orders[0];
      TransferFundsConservesTotal(bank, o.fromName, o.toName, o.amount);
      RunTransfersConservesTotal(TransferFunds(bank, o.fromName, o.toName, o.amount).state, orders[1..]);
    }
  }

  /** A history of transfers keeps the registry invariant, and keeps every
      balance non-negative when no amount is negative. */
  lemma {:induction false} RunTransfersPreserves(bank: Bank, orders: seq<Order>)
    ensures Valid(bank) ==> Valid(RunTransfers(bank, orders).0)
    ensures Solvent(bank) && (forall i :: 0 <= i < |orders| ==> orders[i].amount >= 0) ==>
      Solvent(RunTransfers(bank, orders).0)
    decreases |orders|
  {
    if |orders| > 0 {
      var o := orders[0];
      TransferFundsPreserves(bank, o.fromName, o.toName, o.amount);
      RunTransfersPreserves(TransferFunds(bank, o.fromName, o.toName, o.amount).state, orders[1..]);
    }
  }
}
