/** The `Account` entity: an id, an owner name and a balance, with the two
    operations that change the balance in place. Balances are exact integers
    (minor units of the currency); the source uses `BigDecimal` only for exact
    addition, subtraction and comparison with zero. */
module Accounts {
  import opened Results

  /** The value of an account as the repository stores it. Two accounts are
      equal when id, name and balance are equal. The id is `None` until the
      repository assigns one on the first save. */
  datatype AccountData = AccountData(id: Option<nat>, name: string, balance: int)

  /** What `debit(amount)` does to a balance: the new balance, or
      `NotEnoughMoney` when that new balance would be below zero. The guard is a
      strict `< 0`, so taking out the whole balance is allowed. */
  function Debited(balance: int, amount: int): (r: Result<int>)
    ensures r.Ok? <==> amount <= balance
    ensures r.Ok? ==> r.value >= 0 && r.value + amount == balance
    ensures r.Err? ==> r.error == NotEnoughMoney
  {
    var newBalance := balance - amount;
    if newBalance < 0 then Err(NotEnoughMoney) else Ok(newBalance)
  }

  /** What `credit(amount)` does to a balance; it has no guard at all. A
      non-negative amount never lowers the balance, and on a non-negative
      balance a debit of the same amount always succeeds and gives it back. */
  function Credited(balance: int, amount: int): (r: int)
    ensures amount >= 0 ==> r >= balance
    ensures balance >= 0 ==> Debited(r, amount) == Ok(balance)
  {
    balance + amount
  }

  /** A successful debit followed by a credit of the same amount gives back
      the balance exactly. */
  lemma DebitThenCreditRestores(balance: int, amount: int)
    requires Debited(balance, amount).Ok?
    ensures Credited(Debited(balance, amount).value, amount) == balance
  {
  }

  /** Debiting exactly the whole balance succeeds and leaves zero. */
  lemma DebitWholeBalance(balance: int)
    ensures Debited(balance, balance) == Ok(0)
  {
  }

  /** A debit of more than the balance fails and leaves nothing to apply. */
  lemma DebitOverdraftFails(balance: int, amount: int)
    requires amount > balance
    ensures Debited(balance, amount) == Err(NotEnoughMoney)
  {
  }

  /** The entity object that the service loads, changes in memory and saves. */
  class Account {
    var id: Option<nat>
    var name: string
    var balance: int

    constructor (id: Option<nat>, name: string, balance: int)
      ensures Data() == AccountData(id, name, balance)
    {
      this.id := id;
      this.name := name;
      this.balance := balance;
    }

    /** The current value of the object, as it would be written by a save. */
    function Data(): AccountData
      reads this
    {
      AccountData(id, name, balance)
    }

    /** `debit`: computes the new balance first, throws before assigning when
        it is negative, and only then stores it. Id and name never change. */
    method Debit(amount: int) returns (outcome: Outcome)
      modifies this`balance
      ensures outcome == Debited(old(balance), amount).ToOutcome()
      ensures balance == Debited(old(balance), amount).GetOr(old(balance))
      ensures outcome.Pass? ==> balance >= 0
      ensures Data() == old(Data()).(balance := balance)
    {
      var newBalance := balance - amount;
      if newBalance < 0 {
        return Fail(NotEnoughMoney);
      }
      balance := newBalance;
      outcome := Pass;
    }

    /** `credit`: adds the amount unconditionally. Id and name never change. */
    method Credit(amount: int)
      modifies this`balance
      ensures balance == Credited(old(balance), amount)
      ensures Data() == old(Data()).(balance := balance)
    {
      balance := balance + amount;
    }
  }
}
