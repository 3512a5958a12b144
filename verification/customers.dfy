/**
  A bank customer (src/models/Customer.ts): a name, a balance and a lock
  flag, with deposit, withdrawal and transfer.

  Every operation is one atomic step of a sequential machine. Acquiring the
  lock of an account whose flag is already set fails at once with
  `AccountLocked`: in a sequential run nothing else can clear the flag while
  the source polls for it, so its poll-until-timeout loop always ends that
  way. Balances are unbounded integers.
 */
module Customers {
  import opened Outcomes
  import Names

  /** One account. `locked` is the flag `lock` sets and `unlock` clears. */
  datatype Customer = Customer(name: string, balance: int, locked: bool)

  /** The two accounts a transfer touches, by role. */
  datatype Parties = Parties(sender: Customer, recipient: Customer)

  /** The constructor: a negative initial deposit is refused; otherwise the
      account opens unlocked holding exactly that deposit. */
  function NewCustomer(name: string, initialDeposit: int): (r: Result<Customer>)
    ensures r.Err? <==> initialDeposit < 0
    ensures r.Err? ==> r.error == InvalidAmount
    ensures r.Ok? ==> r.value.name == name && r.value.balance == initialDeposit && !r.value.locked
  {
    if initialDeposit < 0 then Err(InvalidAmount)
    else Ok(Customer(name, initialDeposit, false))
  }

  /** Acquire the account's lock. A held lock makes the attempt fail and the
      flag stays as it was. */
  function Lock(c: Customer): (r: Result<Customer>)
    ensures r.Err? <==> c.locked
    ensures r.Err? ==> r.error == AccountLocked
    ensures r.Ok? ==> r.value.locked && r.value.name == c.name && r.value.balance == c.balance
  {
    if c.locked then Err(AccountLocked) else Ok(c.(locked := true))
  }

  /** Release the lock unconditionally. */
  function Unlock(c: Customer): (r: Customer)
    ensures !r.locked && r.name == c.name && r.balance == c.balance
  {
    c.(locked := false)
  }

  /** Releasing a lock just acquired restores the account exactly. */
  lemma LockUnlockRoundTrip(c: Customer)
    requires !c.locked
    ensures Lock(c).Ok? && Unlock(Lock(c).value) == c
  {
  }

  /** `deposit`: the amount is checked before the lock is touched; with the
      lock held the balance grows by the amount, and the lock is released. */
  function Deposit(c: Customer, amount: int): (r: Step<Customer>)
    ensures amount <= 0 ==> r == Step(c, Failed(InvalidAmount))
    ensures amount > 0 && c.locked ==> r == Step(c, Failed(AccountLocked))
    ensures r.outcome == Done <==> amount > 0 && !c.locked
    ensures r.outcome == Done ==>
      r.state.name == c.name && r.state.balance == c.balance + amount && !r.state.locked
    ensures c.balance >= 0 ==> r.state.balance >= 0
  {
    if amount <= 0 then Step(c, Failed(InvalidAmount))
    else match Lock(c)
      case Err(e) => Step(c, Failed(e))
      case Ok(held) => Step(Unlock(held.(balance := held.balance + amount)), Done)
  }

  /** `withdraw`: the amount is checked before the lock; with the lock held
      the balance is compared against the amount, and the lock is released
      on both the insufficient-funds path and the success path. */
  function Withdraw(c: Customer, amount: int): (r: Step<Customer>)
    ensures amount <= 0 ==> r == Step(c, Failed(InvalidAmount))
    ensures amount > 0 && c.locked ==> r == Step(c, Failed(AccountLocked))
    ensures amount > 0 && !c.locked && c.balance < amount ==> r == Step(c, Failed(InsufficientFunds))
    ensures r.outcome == Done <==> amount > 0 && !c.locked && c.balance >= amount
    ensures r.outcome == Done ==>
      r.state.name == c.name && r.state.balance == c.balance - amount && !r.state.locked
    ensures r.outcome == Done ==> r.state.balance >= 0
    ensures c.balance >= 0 ==> r.state.balance >= 0
  {
    if amount <= 0 then Step(c, Failed(InvalidAmount))
    else match Lock(c)
      case Err(e) => Step(c, Failed(e))
      case Ok(held) =>
        if held.balance < amount then Step(Unlock(held), Failed(InsufficientFunds))
        else Step(Unlock(held.(balance := held.balance - amount)), Done)
  }

  /** Withdrawing what was just deposited restores the account. The
      withdrawal needs the deposited sum to cover it, which holds exactly
      when the account was not overdrawn before (only a negative transfer
      can overdraw one). */
  lemma DepositThenWithdraw(c: Customer, amount: int)
    requires amount > 0 && !c.locked && c.balance >= 0
    ensures Withdraw(Deposit(c, amount).state, amount) == Step(c, Done)
  {
  }

  /** The two-element sort of `[sender, recipient]` by name: the recipient
      goes first only when its name sorts strictly before the sender's (the
      sort is stable, so equal names keep the sender first). */
  predicate SenderLocksFirst(sender: Customer, recipient: Customer)
  {
    !Names.Precedes(recipient.name, sender.name)
  }

  /** The order in which a transfer acquires its two locks: the two
      accounts sorted by name. */
  function LockOrder(sender: Customer, recipient: Customer): (r: seq<Customer>)
    ensures |r| == 2 && multiset(r) == multiset{sender, recipient}
    ensures !Names.Precedes(r[1].name, r[0].name)
    ensures sender.name == recipient.name ==> r == [sender, recipient]
  {
    if SenderLocksFirst(sender, recipient) then [sender, recipient]
    else
      Names.PrecedesAsymmetric(recipient.name, sender.name);
      [recipient, sender]
  }

  /** Between two differently named accounts the sorted array does not
      depend on which one sends. This is a fact about the array only: the
      locks in it are then requested all at once, not one after another. */
  lemma LockOrderIgnoresDirection(a: Customer, b: Customer)
    requires a.name != b.name
    ensures LockOrder(a, b) == LockOrder(b, a)
    ensures LockOrder(a, b)[0].name == if Names.Precedes(a.name, b.name) then a.name else b.name
  {
    Names.PrecedesConnected(a.name, b.name);
    if Names.Precedes(a.name, b.name) {
      Names.PrecedesAsymmetric(a.name, b.name);
    } else {
      Names.PrecedesAsymmetric(b.name, a.name);
    }
  }

  /** `Promise.all(accounts.map(lock))`: every lock attempt is started at
      once, so each free account in the list becomes locked whatever
      happens to the others; the whole acquisition fails with
      `AccountLocked` when any account was already held, and nothing is
      released on that path. */
  function AcquireAll(accounts: seq<Customer>): (r: Step<seq<Customer>>)
    ensures |r.state| == |accounts|
    ensures forall i :: 0 <= i < |accounts| ==> r.state[i] == accounts[i].(locked := true)
    ensures r.outcome == Done || r.outcome == Failed(AccountLocked)
    ensures r.outcome == Done <==> forall i :: 0 <= i < |accounts| ==> !accounts[i].locked
    decreases |accounts|
  {
    if |accounts| == 0 then Step([], Done)
    else
      var rest := AcquireAll(accounts[1..]);
      match Lock(accounts[0])
      case Err(e) => Step([accounts[0]] + rest.state, Failed(e))
      case Ok(held) => Step([held] + rest.state, rest.outcome)
  }

  /** `transfer(amount, recipient)`. Object identity (`recipient === this`)
      has no counterpart among values, so `same` says whether the two
      parameters denote the same customer object.

      Order of checks: self-transfer (before any locking), then acquiring
      both locks in name order, then the sender's funds. The amount's sign
      is never checked: a zero or negative amount is not rejected, it passes
      the funds check only when the sender's balance is at least the amount,
      and a negative one then moves money from the recipient to the sender.
      When one
      lock is held, the free account is still locked and is never
      released. */
  function Transfer(sender: Customer, recipient: Customer, amount: int, same: bool): (r: Step<Parties>)
    ensures same ==> r == Step(Parties(sender, recipient), Failed(InvalidOperation))
    ensures !same ==> (r.outcome == Failed(AccountLocked) <==> sender.locked || recipient.locked)
    ensures r.outcome == Failed(AccountLocked) ==>
      r.state == Parties(sender.(locked := true), recipient.(locked := true))
    ensures !same && !sender.locked && !recipient.locked && sender.balance < amount ==>
      r == Step(Parties(sender, recipient), Failed(InsufficientFunds))
    ensures r.outcome == Done <==> !same && !sender.locked && !recipient.locked && sender.balance >= amount
    ensures r.outcome == Done ==>
      && r.state.sender == Customer(sender.name, sender.balance - amount, false)
      && r.state.recipient == Customer(recipient.name, recipient.balance + amount, false)
    ensures r.outcome.Failed? && r.outcome.error != AccountLocked ==> r.state == Parties(sender, recipient)
    ensures r.outcome != Failed(InvalidAmount)
    ensures r.state.sender.name == sender.name && r.state.recipient.name == recipient.name
    ensures r.state.sender.balance + r.state.recipient.balance == sender.balance + recipient.balance
  {
    if same then Step(Parties(sender, recipient), Failed(InvalidOperation))
    else
      var acquired := AcquireAll(LockOrder(sender, recipient));
      var first := SenderLocksFirst(sender, recipient);
      var s := if first then acquired.state[0] else acquired.state[1];
      var t := if first then acquired.state[1] else acquired.state[0];
      if acquired.outcome.Failed? then Step(Parties(s, t), acquired.outcome)
      else if s.balance < amount then Step(Parties(Unlock(s), Unlock(t)), Failed(InsufficientFunds))
      else Step(Parties(Unlock(s.(balance := s.balance - amount)), Unlock(t.(balance := t.balance + amount))), Done)
  }

  /** With a non-negative amount no transfer drives either balance below
      zero. A negative amount is accepted and can (see
      `NegativeTransferReversesDirection`). */
  lemma TransferKeepsBalancesNonNegative(sender: Customer, recipient: Customer, amount: int, same: bool)
    requires amount >= 0 && sender.balance >= 0 && recipient.balance >= 0
    ensures var r := Transfer(sender, recipient, amount, same);
      r.state.sender.balance >= 0 && r.state.recipient.balance >= 0
  {
  }

  /** Sending the amount back undoes a successful transfer, provided the
      recipient started solvent. */
  lemma TransferRoundTrip(sender: Customer, recipient: Customer, amount: int)
    requires Transfer(sender, recipient, amount, false).outcome == Done
    requires recipient.balance >= 0
    ensures var back := Transfer(sender, recipient, amount, false).state;
      Transfer(back.recipient, back.sender, amount, false) == Step(Parties(recipient, sender), Done)
  {
  }

  /** The unchecked amount: a negative transfer succeeds and moves money
      backwards, even leaving the recipient overdrawn. */
  lemma NegativeTransferReversesDirection()
    ensures var r := Transfer(Customer("Alice", 100, false), Customer("Bob", 20, false), -50, false);
      r.outcome == Done && r.state.sender.balance == 150 && r.state.recipient.balance == -30
  {
  }

  /** The leaked lock: when only the sender is held, the transfer fails
      and leaves the recipient's flag set as well, whatever the amount, with
      both accounts otherwise untouched. */
  lemma FailedTransferLeavesFreeAccountLocked(sender: Customer, recipient: Customer, amount: int)
    requires sender.locked && !recipient.locked
    ensures var r := Transfer(sender, recipient, amount, false);
      && r.outcome == Failed(AccountLocked)
      && r.state.sender == sender
      && r.state.recipient == recipient.(locked := true)
  {
  }
}
