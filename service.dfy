/** `AccountServiceImpl`: the service object holding the two repositories. The
    read-only operations are the functions of module Stores applied to
    `State()`; the operations that write are methods here. */
module Services {
  import opened Results
  import opened Accounts
  import opened Banks
  import opened Stores
  import opened Transfers

  class AccountService {
    /** The account repository. */
    var accounts: map<nat, AccountData>
    /** The bank repository. */
    var banks: map<nat, BankData>
    /** The account table's identity counter. */
    var nextId: nat

    function State(): Store
      reads this
    {
      Store(accounts, banks, nextId)
    }

    predicate Valid()
      reads this
    {
      Stores.Valid(State())
    }

    /** The service over repositories already holding `seed`. */
    constructor (seed: Store)
      requires Stores.Valid(seed)
      ensures Valid() && State() == seed
    {
      accounts, banks, nextId := seed.accounts, seed.banks, seed.nextId;
    }

    /** `save`: passes the account to the repository's save and returns what
        it saved (with the id it was given). */
    method Save(account: AccountData) returns (saved: AccountData)
      requires Valid()
      modifies this
      ensures Valid()
      ensures (State(), saved) == SaveAccount(old(State()), account)
    {
      match account.id {
        case Some(k) =>
          accounts := accounts[k := account];
          if k >= nextId {
            nextId := k + 1;
          }
          saved := account;
        case None =>
          saved := account.(id := Some(nextId));
          accounts := accounts[nextId := saved];
          nextId := nextId + 1;
      }
    }

    /** `deleteById`: removes the account, or fails when there is none. */
    method DeleteById(id: nat) returns (outcome: Outcome)
      requires Valid()
      modifies this
      ensures Valid()
      ensures outcome == DeleteAccount(old(State()), id).ToOutcome()
      ensures State() == DeleteAccount(old(State()), id).GetOr(old(State()))
    {
      if id !in accounts {
        return Fail(EmptyResult);
      }
      accounts := accounts - {id};
      outcome := Pass;
    }

    /** `transfer`: load the origin, debit it, save it; load the destination,
        credit it, save it; load the bank, increment its counter, save it. The
        surrounding transaction is not modelled: each save takes effect when it
        happens, even if a later step throws. `calls` records the
        repository calls made, in order. */
    method Transfer(origin: nat, destination: nat, amount: int, bankId: nat)
        returns (outcome: Outcome, ghost calls: seq<Call>)
      requires Valid()
      modifies this
      ensures Valid()
      ensures Step(State(), outcome, calls) == Transfers.Transfer(old(State()), origin, destination, amount, bankId)
    {
      calls := [AccountFind(origin)];
      if origin !in accounts {
        return Fail(NoSuchElement), calls;
      }
      var row := accounts[origin];
      var originAccount := new Account(row.id, row.name, row.balance);
      outcome := originAccount.Debit(amount);
      if outcome.Fail? {
        return;
      }
      var saved := Save(originAccount.Data());
      calls := calls + [AccountSave(saved), AccountFind(destination)];

      if destination !in accounts {
        return Fail(NoSuchElement), calls;
      }
      row := accounts[destination];
      var destinationAccount := new Account(row.id, row.name, row.balance);
      destinationAccount.Credit(amount);
      saved := Save(destinationAccount.Data());
      calls := calls + [AccountSave(saved), BankFind(bankId)];

      if bankId !in banks {
        return Fail(NoSuchElement), calls;
      }
      var bank := banks[bankId];
      var totalTransfers := bank.totalTransfers;
      totalTransfers := Incremented(totalTransfers);
      bank := bank.(totalTransfers := totalTransfers);
      banks := banks[bank.id := bank];
      calls := calls + [BankSave(bank)];
      outcome := Pass;
    }
  }
}
