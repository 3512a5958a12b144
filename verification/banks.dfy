/**
  The bank (src/models/Bank.ts): a registry from customer name to customer,
  with registration, lookup, the total of all balances, and transfers
  between two registered customers.
 */
module Banks {
  import opened Outcomes
  import opened Customers

  /** The registry. Customers are never removed. */
  datatype Bank = Bank(customers: map<string, Customer>)

  /** Registry invariant: every entry is filed under its customer's name. */
  ghost predicate Valid(bank: Bank)
  {
    forall name :: name in bank.customers ==> bank.customers[name].name == name
  }

  /** No registered customer is overdrawn. */
  ghost predicate Solvent(bank: Bank)
  {
    forall name :: name in bank.customers ==> bank.customers[name].balance >= 0
  }

  /** The sum of the balances of every customer in `m`, taken in no
      particular order. */
  ghost function Total(m: map<string, Customer>): int
    decreases |m|
  {
    if m == map[] then 0
    else
      var name :| name in m;
      assert |m - {name}| < |m| by {
        assert m.Keys == (m - {name}).Keys + {name};
      }
      m[name].balance + Total(m - {name})
  }

  /** The sum may be split at any entry, not only the one `Total` happens to
      pick. */
  lemma {:induction false} TotalRemove(m: map<string, Customer>, name: string)
    requires name in m
    ensures Total(m) == m[name].balance + Total(m - {name})
    decreases |m|
  {
    var picked :| picked in m && Total(m) == m[picked].balance + Total(m - {picked});
    if picked != name {
      assert |m - {picked}| < |m| by {
        assert m.Keys == (m - {picked}).Keys + {picked};
      }
      assert |m - {name}| < |m| by {
        assert m.Keys == (m - {name}).Keys + {name};
      }
      TotalRemove(m - {picked}, name);
      TotalRemove(m - {name}, picked);
      assert m - {picked} - {name} == m - {name} - {picked};
    }
  }

  /** Filing a new customer adds its balance to the total. */
  lemma TotalInsert(m: map<string, Customer>, name: string, c: Customer)
    requires name !in m
    ensures Total(m[name := c]) == Total(m) + c.balance
  {
    TotalRemove(m[name := c], name);
    assert m[name := c] - {name} == m;
  }

  /** Replacing one entry changes the total by the difference of the two
      balances. */
  lemma TotalUpdate(m: map<string, Customer>, name: string, c: Customer)
    requires name in m
    ensures Total(m[name := c]) == Total(m) - m[name].balance + c.balance
  {
    TotalRemove(m, name);
    TotalRemove(m[name := c], name);
    assert m[name := c] - {name} == m - {name};
  }

  /** The constructor: an empty registry. */
  function NewBank(): (b: Bank)
    ensures Valid(b) && Solvent(b)
    ensures Total(b.customers) == 0
    ensures forall name :: GetCustomer(b, name) == Err(CustomerNotFound(name))
  {
    Bank(map[])
  }

  /** `addCustomer`: the duplicate check runs first, then the constructor's
      deposit check; only a customer that was constructed is filed. */
  function AddCustomer(bank: Bank, name: string, initialDeposit: int): (r: Result<(Bank, Customer)>)
    ensures name in bank.customers ==> r == Err(DuplicateCustomer(name))
    ensures name !in bank.customers && initialDeposit < 0 ==> r == Err(InvalidAmount)
    ensures r.Ok? <==> name !in bank.customers && initialDeposit >= 0
    ensures r.Ok? ==>
      var (after, c) := r.value;
      && c == Customer(name, initialDeposit, false)
      && after.customers.Keys == bank.customers.Keys + {name}
      && after.customers[name] == c
      && forall other :: other in bank.customers ==> after.customers[other] == bank.customers[other]
  {
    if name in bank.customers then Err(DuplicateCustomer(name))
    else match NewCustomer(name, initialDeposit)
      case Err(e) => Err(e)
      case Ok(c) => Ok((Bank(bank.customers[name := c]), c))
  }

  /** A registration keeps the registry invariant and solvency, and raises
      the total by exactly the initial deposit. */
  lemma AddCustomerPreserves(bank: Bank, name: string, initialDeposit: int)
    requires AddCustomer(bank, name, initialDeposit).Ok?
    ensures var after := AddCustomer(bank, name, initialDeposit).value.0;
      && (Valid(bank) ==> Valid(after))
      && (Solvent(bank) ==> Solvent(after))
      && Total(after.customers) == Total(bank.customers) + initialDeposit
  {
    TotalInsert(bank.customers, name, Customer(name, initialDeposit, false));
  }

  /** `getCustomer`: fails exactly when the name is not registered. In a
      valid registry the customer found carries the name asked for. */
  function GetCustomer(bank: Bank, name: string): (r: Result<Customer>)
    ensures r.Err? <==> name !in bank.customers
    ensures r.Err? ==> r.error == CustomerNotFound(name)
    ensures r.Ok? ==> name in bank.customers && r.value == bank.customers[name]
    ensures r.Ok? && Valid(bank) ==> r.value.name == name
  {
    if name in bank.customers then Ok(bank.customers[name]) else Err(CustomerNotFound(name))
  }

  /** A customer just added is found under its name with its opening
      balance, unlocked. */
  lemma AddThenGet(bank: Bank, name: string, initialDeposit: int)
    requires name !in bank.customers && initialDeposit >= 0
    ensures var r := AddCustomer(bank, name, initialDeposit);
      r.Ok? && GetCustomer(r.value.0, name) == Ok(Customer(name, initialDeposit, false))
  {
  }

  /** `getTotalBalance`: adds up every customer's balance. */
  method GetTotalBalance(bank: Bank) returns (total: int)
    ensures total == Total(bank.customers)
  {
    total := 0;
    var rest := bank.customers;
    while rest != map[]
      invariant total + Total(rest) == Total(bank.customers)
      decreases |rest|
    {
      var name :| name in rest;
      TotalRemove(rest, name);
      assert rest.Keys == (rest - {name}).Keys + {name};
      total := total + rest[name].balance;
      rest := rest - {name};
    }
  }

  /** `transferFunds`: resolves the sender's name, then the recipient's, and
      hands both to the customer transfer. Two names denote the same customer
      object exactly when they are equal, since every registration constructs
      a fresh customer. */
  function TransferFunds(bank: Bank, fromName: string, toName: string, amount: int): (r: Step<Bank>)
    ensures fromName !in bank.customers ==> r == Step(bank, Failed(CustomerNotFound(fromName)))
    ensures fromName in bank.customers && toName !in bank.customers ==>
      r == Step(bank, Failed(CustomerNotFound(toName)))
    ensures r.outcome.Failed? && r.outcome.error != AccountLocked ==> r.state == bank
    ensures fromName in bank.customers && fromName == toName ==>
      r == Step(bank, Failed(InvalidOperation))
    ensures fromName in bank.customers && toName in bank.customers ==>
      var t := Transfer(bank.customers[fromName], bank.customers[toName], amount, fromName == toName);
      && r.outcome == t.outcome
      && r.state.customers.Keys == bank.customers.Keys
      && r.state.customers[fromName] == t.state.sender
      && r.state.customers[toName] == t.state.recipient
      && forall other :: other in bank.customers && other != fromName && other != toName ==>
           r.state.customers[other] == bank.customers[other]
  {
    match GetCustomer(bank, fromName)
    case Err(e) => Step(bank, Failed(e))
    case Ok(from) =>
      match GetCustomer(bank, toName)
      case Err(e) => Step(bank, Failed(e))
      case Ok(to) =>
        var t := Transfer(from, to, amount, fromName == toName);
        var after := bank.customers[fromName := t.state.sender][toName := t.state.recipient];
        assert t.state == Parties(from, to) ==> after == bank.customers;
        Step(Bank(after), t.outcome)
  }

  /** Exact arithmetic on success: between two different, unlocked
      customers, with the sender holding at least the amount, the transfer
      succeeds, debits the sender, credits the recipient, releases both
      locks and touches nobody else. */
  lemma TransferFundsSucceeds(bank: Bank, fromName: string, toName: string, amount: int)
    requires fromName in bank.customers && toName in bank.customers && fromName != toName
    requires !bank.customers[fromName].locked && !bank.customers[toName].locked
    requires bank.customers[fromName].balance >= amount
    ensures var r := TransferFunds(bank, fromName, toName, amount);
      && r.outcome == Done
      && r.state.customers.Keys == bank.customers.Keys
      && r.state.customers[fromName] == bank.customers[fromName].(balance := bank.customers[fromName].balance - amount)
      && r.state.customers[toName] == bank.customers[toName].(balance := bank.customers[toName].balance + amount)
      && forall other :: other in bank.customers && other != fromName && other != toName ==>
           r.state.customers[other] == bank.customers[other]
  {
  }

  /** A transfer between two names never changes the total, whatever the
      amount and however it ends. */
  lemma TransferFundsConservesTotal(bank: Bank, fromName: string, toName: string, amount: int)
    ensures Total(TransferFunds(bank, fromName, toName, amount).state.customers) == Total(bank.customers)
  {
    var m := bank.customers;
    if fromName in m && toName in m {
      if fromName == toName {
        assert TransferFunds(bank, fromName, toName, amount).state.customers == m;
      } else {
        var t := Transfer(m[fromName], m[toName], amount, false);
        TotalUpdate(m, fromName, t.state.sender);
        TotalUpdate(m[fromName := t.state.sender], toName, t.state.recipient);
      }
    }
  }

  /** A transfer keeps the registry invariant, and with a non-negative
      amount it keeps every balance non-negative. */
  lemma TransferFundsPreserves(bank: Bank, fromName: string, toName: string, amount: int)
    ensures Valid(bank) ==> Valid(TransferFunds(bank, fromName, toName, amount).state)
    ensures Solvent(bank) && amount >= 0 ==> Solvent(TransferFunds(bank, fromName, toName, amount).state)
  {
  }
}
