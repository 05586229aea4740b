/** `transfer(origin, destination, amount, bankId)` as the sequence of
    repository calls it makes, without the transaction that surrounds it in the
    service: each save takes effect when it happens. The container's rollback on
    an exception, which would undo earlier saves, is not part of this model. */
module Transfers {
  import opened Results
  import opened Accounts
  import opened Banks
  import opened Stores

  /** One call to a repository, in the order the transfer makes them. */
  datatype Call =
    | AccountFind(id: nat)
    | AccountSave(account: AccountData)
    | BankFind(id: nat)
    | BankSave(bank: BankData)

  /** The store after the transfer, how it ended and the calls it made. */
  datatype Step = Step(store: Store, outcome: Outcome, calls: seq<Call>)

  /** The three stages: load, debit and save the origin; load, credit and save
      the destination; load the bank, increment its counter and save it. */
  function Transfer(s: Store, origin: nat, destination: nat, amount: int, bankId: nat): (r: Step)
    ensures |r.calls| >= 1 && r.calls[0] == AccountFind(origin)
    ensures r.outcome.Pass? <==> |r.calls| == 6
    ensures Valid(s) ==> Valid(r.store)
  {
    var c0 := [AccountFind(origin)];
    if origin !in s.accounts then Step(s, Fail(NoSuchElement), c0)
    else
      var from := s.accounts[origin];
      match Debited(from.balance, amount)
      case Err(e) => Step(s, Fail(e), c0)
      case Ok(left) =>
        var from' := from.(balance := left);
        var s1 := SaveAccount(s, from').0;
        var c1 := c0 + [AccountSave(from'), AccountFind(destination)];
        if destination !in s1.accounts then Step(s1, Fail(NoSuchElement), c1)
        else
          var to := s1.accounts[destination];
          var to' := to.(balance := Credited(to.balance, amount));
          var s2 := SaveAccount(s1, to').0;
          var c2 := c1 + [AccountSave(to'), BankFind(bankId)];
          if bankId !in s2.banks then Step(s2, Fail(NoSuchElement), c2)
          else
            var bank := s2.banks[bankId];
            var bank' := bank.(totalTransfers := Incremented(bank.totalTransfers));
            Step(SaveBank(s2, bank'), Pass, c2 + [BankSave(bank')])
  }

  /** How many account saves a list of calls holds. */
  function AccountSaves(calls: seq<Call>): nat {
    if calls == [] then 0
    else AccountSaves(calls[..|calls| - 1]) + (if calls[|calls| - 1].AccountSave? then 1 else 0)
  }

  /** How many bank saves a list of calls holds. */
  function BankSaves(calls: seq<Call>): nat {
    if calls == [] then 0
    else BankSaves(calls[..|calls| - 1]) + (if calls[|calls| - 1].BankSave? then 1 else 0)
  }

  lemma {:induction false} SavesAppend(a: seq<Call>, b: seq<Call>)
    ensures AccountSaves(a + b) == AccountSaves(a) + AccountSaves(b)
    ensures BankSaves(a + b) == BankSaves(a) + BankSaves(b)
  {
    if b == [] {
      assert a + b == a;
    } else {
      var b', last := b[..|b| - 1], b[|b| - 1];
      SavesAppend(a, b');
      assert (a + b)[..|a + b| - 1] == a + b';
      assert (a + b)[|a + b| - 1] == last;
    }
  }

  lemma SavesOfOne(c: Call)
    ensures AccountSaves([c]) == (if c.AccountSave? then 1 else 0)
    ensures BankSaves([c]) == (if c.BankSave? then 1 else 0)
  {
    assert [c][..0] == [];
  }

  /** The transfer succeeds exactly when origin, destination and bank all
      exist and the origin holds at least the amount. */
  lemma TransferSucceedsIff(s: Store, origin: nat, destination: nat, amount: int, bankId: nat)
    requires Valid(s)
    ensures Transfer(s, origin, destination, amount, bankId).outcome.Pass?
        <==> origin in s.accounts && destination in s.accounts && bankId in s.banks
             && amount <= s.accounts[origin].balance
  {
  }

  /** Every store the transfer leaves behind, whatever the outcome, is valid
      and has the same ids and the same identity counter. */
  lemma TransferKeepsValid(s: Store, origin: nat, destination: nat, amount: int, bankId: nat)
    requires Valid(s)
    ensures var r := Transfer(s, origin, destination, amount, bankId).store;
      Valid(r) && r.accounts.Keys == s.accounts.Keys && r.banks.Keys == s.banks.Keys && r.nextId == s.nextId
  {
  }

  /** A successful transfer between two different accounts takes the amount
      from the origin, gives it to the destination, counts one more transfer at
      the bank and changes nothing else. */
  lemma TransferMovesMoney(s: Store, origin: nat, destination: nat, amount: int, bankId: nat)
    requires Valid(s) && origin != destination
    requires Transfer(s, origin, destination, amount, bankId).outcome.Pass?
    ensures var r := Transfer(s, origin, destination, amount, bankId).store;
      var from, to, bank := s.accounts[origin], s.accounts[destination], s.banks[bankId];
      && r.accounts == s.accounts[origin := from.(balance := from.balance - amount)]
                                 [destination := to.(balance := to.balance + amount)]
      && r.banks == s.banks[bankId := bank.(totalTransfers := Incremented(bank.totalTransfers))]
      && r.accounts[origin].balance + r.accounts[destination].balance == from.balance + to.balance
      && r.nextId == s.nextId
  {
  }

  /** A transfer from an account to itself that succeeds leaves its balance as
      it was (the credit reloads the debited row) and still counts a transfer. */
  lemma TransferToSelf(s: Store, account: nat, amount: int, bankId: nat)
    requires Valid(s)
    requires Transfer(s, account, account, amount, bankId).outcome.Pass?
    ensures var r := Transfer(s, account, account, amount, bankId).store;
      && r.accounts == s.accounts
      && r.banks == s.banks[bankId := s.banks[bankId].(totalTransfers := Incremented(s.banks[bankId].totalTransfers))]
  {
  }

  /** When the origin holds less than the amount, the transfer throws
      `NotEnoughMoney` right after the first lookup: nothing is saved and the
      store is unchanged. */
  lemma TransferInsufficientFunds(s: Store, origin: nat, destination: nat, amount: int, bankId: nat)
    requires origin in s.accounts && amount > s.accounts[origin].balance
    ensures Transfer(s, origin, destination, amount, bankId)
         == Step(s, Fail(NotEnoughMoney), [AccountFind(origin)])
  {
  }

  /** An unknown origin fails with `NoSuchElement` before anything is saved. */
  lemma TransferMissingOrigin(s: Store, origin: nat, destination: nat, amount: int, bankId: nat)
    requires origin !in s.accounts
    ensures Transfer(s, origin, destination, amount, bankId)
         == Step(s, Fail(NoSuchElement), [AccountFind(origin)])
  {
  }

  /** Order of the calls: the origin is saved before the destination is looked
      up, so in this sequence an unknown destination fails after the debit has
      been saved (the surrounding transaction's rollback would undo that save). */
  lemma TransferMissingDestination(s: Store, origin: nat, destination: nat, amount: int, bankId: nat)
    requires Valid(s) && origin in s.accounts && destination !in s.accounts
    requires amount <= s.accounts[origin].balance
    ensures var from := s.accounts[origin].(balance := s.accounts[origin].balance - amount);
      Transfer(s, origin, destination, amount, bankId)
        == Step(s.(accounts := s.accounts[origin := from]), Fail(NoSuchElement),
                [AccountFind(origin), AccountSave(from), AccountFind(destination)])
  {
  }

  /** The bank is looked up only after both accounts are saved, so in this
      sequence an unknown bank fails after both saves, with the counter
      untouched (the surrounding transaction's rollback would undo the saves). */
  lemma TransferMissingBank(s: Store, origin: nat, destination: nat, amount: int, bankId: nat)
    requires Valid(s) && origin in s.accounts && destination in s.accounts && origin != destination
    requires bankId !in s.banks && amount <= s.accounts[origin].balance
    ensures var r := Transfer(s, origin, destination, amount, bankId);
      var from, to := s.accounts[origin], s.accounts[destination];
      && r.outcome == Fail(NoSuchElement)
      && r.store.accounts == s.accounts[origin := from.(balance := from.balance - amount)]
                                       [destination := to.(balance := to.balance + amount)]
      && r.store.banks == s.banks
      && |r.calls| == 5 && r.calls[4] == BankFind(bankId)
  {
  }

  /** Whatever the outcome, no account other than origin and destination and
      no bank other than `bankId` changes. */
  lemma TransferTouchesOnlyItsRecords(s: Store, origin: nat, destination: nat, amount: int, bankId: nat)
    requires Valid(s)
    ensures var r := Transfer(s, origin, destination, amount, bankId).store;
      && (forall k :: k in s.accounts && k != origin && k != destination ==> k in r.accounts && r.accounts[k] == s.accounts[k])
      && (forall k :: k in s.banks && k != bankId ==> k in r.banks && r.banks[k] == s.banks[k])
  {
  }

  /** A successful transfer saves two accounts and one bank, in that order; a
      transfer stopped by the debit saves nothing. */
  lemma TransferSaveCounts(s: Store, origin: nat, destination: nat, amount: int, bankId: nat)
    ensures var r := Transfer(s, origin, destination, amount, bankId);
      && (r.outcome.Pass? ==> AccountSaves(r.calls) == 2 && BankSaves(r.calls) == 1
                              && r.calls[1].AccountSave? && r.calls[3].AccountSave? && r.calls[5].BankSave?)
      && (r.outcome == Fail(NotEnoughMoney) ==> AccountSaves(r.calls) == 0 && BankSaves(r.calls) == 0)
  {
    var r := Transfer(s, origin, destination, amount, bankId);
    if r.outcome.Pass? {
      var c := r.calls;
      assert c == [c[0]] + [c[1]] + [c[2]] + [c[3]] + [c[4]] + [c[5]];
      SavesAppend([c[0]] + [c[1]] + [c[2]] + [c[3]] + [c[4]], [c[5]]);
      SavesAppend([c[0]] + [c[1]] + [c[2]] + [c[3]], [c[4]]);
      SavesAppend([c[0]] + [c[1]] + [c[2]], [c[3]]);
      SavesAppend([c[0]] + [c[1]], [c[2]]);
      SavesAppend([c[0]], [c[1]]);
      SavesOfOne(c[0]); SavesOfOne(c[1]); SavesOfOne(c[2]);
      SavesOfOne(c[3]); SavesOfOne(c[4]); SavesOfOne(c[5]);
    } else if r.outcome == Fail(NotEnoughMoney) {
      SavesOfOne(r.calls[0]);
    }
  }

  /** A successful transfer moves money without creating or destroying any:
      the sum of all balances in the ledger is the same afterwards. */
  lemma {:induction false} TransferConservesMoney(s: Store, origin: nat, destination: nat, amount: int, bankId: nat)
    requires Valid(s)
    requires Transfer(s, origin, destination, amount, bankId).outcome.Pass?
    ensures LedgerTotal(Transfer(s, origin, destination, amount, bankId).store) == LedgerTotal(s)
  {
    var from := s.accounts[origin];
    var a1 := s.accounts[origin := from.(balance := from.balance - amount)];
    var to := a1[destination];
    var a2 := a1[destination := to.(balance := to.balance + amount)];
    TotalUpdate(s.accounts, s.nextId, origin, a1[origin]);
    TotalUpdate(a1, s.nextId, destination, a2[destination]);
    assert Transfer(s, origin, destination, amount, bankId).store.accounts == a2;
  }

  /** For a non-negative amount no transfer, whatever its outcome, leaves an
      account overdrawn that was not overdrawn before. */
  lemma TransferKeepsBalancesNonNegative(s: Store, origin: nat, destination: nat, amount: int, bankId: nat)
    requires Valid(s) && NonNegative(s) && amount >= 0
    ensures NonNegative(Transfer(s, origin, destination, amount, bankId).store)
  {
  }

  /** The fixtures of the unit tests: Kevin with 1000 under id 1, Brando with
      2000 under id 2, and "The American Bank" under id 1 with no transfers. */
  function Fixture(): (s: Store)
    ensures Valid(s) && NonNegative(s)
  {
    Store(map[1 := AccountData(Some(1), "Kevin", 1000), 2 := AccountData(Some(2), "Brando", 2000)],
          map[1 := BankData(1, "The American Bank", 0)],
          3)
  }

  /** No check is made that the amount is positive: a negative amount passes
      the origin's guard (it raises the origin's balance) and the credit then
      drives the destination below zero. */
  lemma NegativeAmountOverdrawsDestination()
    ensures var r := Transfer(Fixture(), 1, 2, -3000, 1);
      && r.outcome == Pass
      && r.store.accounts[1].balance == 4000
      && r.store.accounts[2].balance == -1000
      && !NonNegative(r.store)
  {
  }
}
