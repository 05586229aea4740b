/** The two repositories the service works on (accounts by id, banks by id)
    and the read and write operations the service passes through to them. */
module Stores {
  import opened Results
  import opened Accounts
  import opened Banks

  /** The persisted state: both tables, and the next value of the account
      table's identity column. */
  datatype Store = Store(accounts: map<nat, AccountData>, banks: map<nat, BankData>, nextId: nat)

  /** What the database guarantees of its rows: each row carries the key it is
      stored under, and every account key was handed out before `nextId`. */
  predicate Valid(s: Store) {
    && (forall k :: k in s.accounts ==> s.accounts[k].id == Some(k) && k < s.nextId)
    && (forall k :: k in s.banks ==> s.banks[k].id == k)
  }

  /** No account is overdrawn. */
  predicate NonNegative(s: Store) {
    forall k :: k in s.accounts ==> s.accounts[k].balance >= 0
  }

  /** `findById`: the stored account, or `NoSuchElement` for an absent id. */
  function FindById(s: Store, id: nat): (r: Result<AccountData>)
    ensures r.Err? <==> id !in s.accounts
    ensures r.Err? ==> r.error == NoSuchElement
    ensures r.Ok? ==> r.value == s.accounts[id]
    ensures Valid(s) && r.Ok? ==> r.value.id == Some(id)
  {
    if id in s.accounts then Ok(s.accounts[id]) else Err(NoSuchElement)
  }

  /** `reviewBalance`: the stored balance, or `NoSuchElement`. */
  function ReviewBalance(s: Store, accountId: nat): (r: Result<int>)
    ensures r.Err? <==> accountId !in s.accounts
    ensures r.Err? ==> r.error == NoSuchElement
    ensures r.Ok? ==> r.value == s.accounts[accountId].balance
  {
    match FindById(s, accountId)
    case Ok(account) => Ok(account.balance)
    case Err(e) => Err(e)
  }

  /** `reviewTotalTransfers`: the stored counter, or `NoSuchElement`. */
  function ReviewTotalTransfers(s: Store, bankId: nat): (r: Result<Int32>)
    ensures r.Err? <==> bankId !in s.banks
    ensures r.Err? ==> r.error == NoSuchElement
    ensures r.Ok? ==> r.value == s.banks[bankId].totalTransfers
  {
    if bankId in s.banks then Ok(s.banks[bankId].totalTransfers) else Err(NoSuchElement)
  }

  /** The ids below `n` that are in `keys`, in ascending order. */
  function IdsBelow(keys: set<nat>, n: nat): (r: seq<nat>)
    ensures forall i :: 0 <= i < |r| ==> r[i] in keys && r[i] < n
    ensures forall i, j :: 0 <= i < j < |r| ==> r[i] < r[j]
    ensures forall k :: k in keys && k < n ==> k in r
  {
    if n == 0 then [] else IdsBelow(keys, n - 1) + (if n - 1 in keys then [n - 1] else [])
  }

  function Elements(ids: seq<nat>): set<nat> {
    set i | i in ids
  }

  /** A strictly ascending sequence has no repeats, so it is as long as the
      set of its elements. */
  lemma {:induction false} AscendingLength(ids: seq<nat>)
    requires forall i, j :: 0 <= i < j < |ids| ==> ids[i] < ids[j]
    ensures |Elements(ids)| == |ids|
  {
    if ids != [] {
      var init, last := ids[..|ids| - 1], ids[|ids| - 1];
      AscendingLength(init);
      assert ids == init + [last];
      assert last !in Elements(init) by {
        forall i | 0 <= i < |init| ensures init[i] != last {
          assert init[i] == ids[i];
        }
      }
      assert Elements(ids) == Elements(init) + {last};
    }
  }

  /** The rows stored under the given ids, in the same order. */
  function RowsOf(m: map<nat, AccountData>, ids: seq<nat>): (rows: seq<AccountData>)
    requires forall i :: 0 <= i < |ids| ==> ids[i] in m
    ensures |rows| == |ids|
    ensures forall i :: 0 <= i < |ids| ==> rows[i] == m[ids[i]]
  {
    seq(|ids|, i requires 0 <= i < |ids| => m[ids[i]])
  }

  /** `findAll`: every stored account exactly once, in the order of their ids,
      which for identity ids is the order of creation. */
  function FindAll(s: Store): (r: seq<AccountData>)
    requires Valid(s)
    ensures |r| == |s.accounts|
    ensures forall i :: 0 <= i < |r| ==> r[i].id.Some? && r[i].id.value in s.accounts && s.accounts[r[i].id.value] == r[i]
    ensures forall k :: k in s.accounts ==> s.accounts[k] in r
    ensures forall i, j :: 0 <= i < j < |r| ==> r[i].id.value < r[j].id.value
  {
    var ids := IdsBelow(s.accounts.Keys, s.nextId);
    ListedOnce(s.accounts, ids);
    RowsComplete(s.accounts, ids);
    RowsKeyed(s.accounts, ids);
    RowsOf(s.accounts, ids)
  }

  /** Listing the ids of a valid store in ascending order lists each key once. */
  lemma ListedOnce(m: map<nat, AccountData>, ids: seq<nat>)
    requires forall i, j :: 0 <= i < j < |ids| ==> ids[i] < ids[j]
    requires forall i :: 0 <= i < |ids| ==> ids[i] in m
    requires forall k :: k in m ==> k in ids
    ensures |ids| == |m|
  {
    AscendingLength(ids);
    assert Elements(ids) == m.Keys;
  }

  /** Rows looked up by a list of ids include the row of every listed id. */
  lemma RowsComplete(m: map<nat, AccountData>, ids: seq<nat>)
    requires forall i :: 0 <= i < |ids| ==> ids[i] in m
    ensures forall k :: k in m && k in ids ==> m[k] in RowsOf(m, ids)
  {
    var rows := RowsOf(m, ids);
    forall k | k in m && k in ids
      ensures m[k] in rows
    {
      var i :| 0 <= i < |ids| && ids[i] == k;
      assert rows[i] == m[k];
    }
  }

  /** In a valid store each row looked up by id carries that id. */
  lemma RowsKeyed(m: map<nat, AccountData>, ids: seq<nat>)
    requires forall i :: 0 <= i < |ids| ==> ids[i] in m
    requires forall k :: k in m ==> m[k].id == Some(k)
    ensures forall i :: 0 <= i < |ids| ==> RowsOf(m, ids)[i].id == Some(ids[i])
  {
  }

  /** The repository's `save` of an account: an account without an id gets the
      next identity value; an account with an id overwrites (or creates) the
      row with that id. Returns the new store and the saved account. */
  function SaveAccount(s: Store, account: AccountData): (r: (Store, AccountData))
    ensures r.1.id.Some? && r.0.accounts == s.accounts[r.1.id.value := r.1]
    ensures r.1.name == account.name && r.1.balance == account.balance
    ensures account.id.Some? ==> r.1 == account
    ensures account.id.None? && Valid(s) ==> r.1.id.value !in s.accounts
    ensures r.0.banks == s.banks
    ensures Valid(s) ==> Valid(r.0)
    ensures Valid(s) && account.id.Some? && account.id.value in s.accounts ==> r.0.nextId == s.nextId
  {
    match account.id
    case Some(k) =>
      (s.(accounts := s.accounts[k := account], nextId := if k < s.nextId then s.nextId else k + 1), account)
    case None =>
      var saved := account.(id := Some(s.nextId));
      (s.(accounts := s.accounts[s.nextId := saved], nextId := s.nextId + 1), saved)
  }

  /** The bank repository's `save`: overwrites the row with the bank's id. */
  function SaveBank(s: Store, bank: BankData): (r: Store)
    ensures r.banks == s.banks[bank.id := bank]
    ensures r.accounts == s.accounts && r.nextId == s.nextId
    ensures Valid(s) ==> Valid(r)
  {
    s.(banks := s.banks[bank.id := bank])
  }

  /** `deleteById`: removes the row, or fails with `EmptyResult` when there is
      none. */
  function DeleteAccount(s: Store, id: nat): (r: Result<Store>)
    ensures r.Ok? <==> id in s.accounts
    ensures r.Err? ==> r.error == EmptyResult
    ensures r.Ok? ==> r.value.accounts.Keys == s.accounts.Keys - {id}
    ensures r.Ok? ==> |r.value.accounts| == |s.accounts| - 1
    ensures r.Ok? ==> forall k :: k in r.value.accounts ==> r.value.accounts[k] == s.accounts[k]
    ensures r.Ok? ==> r.value.banks == s.banks && r.value.nextId == s.nextId
  {
    if id in s.accounts then
      var rest := s.accounts - {id};
      assert rest.Keys == s.accounts.Keys - {id};
      Ok(s.(accounts := rest))
    else
      Err(EmptyResult)
  }

  /** After a successful delete the id is no longer found and `findAll` lists
      one account fewer. */
  lemma DeleteThenFind(s: Store, id: nat)
    requires Valid(s) && id in s.accounts
    ensures DeleteAccount(s, id).Ok? && Valid(DeleteAccount(s, id).value)
    ensures FindById(DeleteAccount(s, id).value, id) == Err(NoSuchElement)
    ensures |FindAll(DeleteAccount(s, id).value)| == |FindAll(s)| - 1
  {
  }

  /** An account saved without an id is found again under the id it was given,
      with the same name and balance. */
  lemma SaveThenFind(s: Store, account: AccountData)
    requires Valid(s)
    ensures var (s', saved) := SaveAccount(s, account);
      && FindById(s', saved.id.value) == Ok(saved)
      && saved.name == account.name && saved.balance == account.balance
      && (account.id.None? ==> |FindAll(s')| == |FindAll(s)| + 1)
  {
  }

  /** The sum of the balances of the accounts with an id below `n`. */
  function Total(accounts: map<nat, AccountData>, n: nat): int {
    if n == 0 then 0
    else Total(accounts, n - 1) + (if n - 1 in accounts then accounts[n - 1].balance else 0)
  }

  /** All the money in the ledger. */
  function LedgerTotal(s: Store): int {
    Total(s.accounts, s.nextId)
  }

  /** The total only looks at the balances of the ids it sums over. */
  lemma {:induction false} TotalFrame(a: map<nat, AccountData>, b: map<nat, AccountData>, n: nat)
    requires forall k :: k < n ==> (k in a <==> k in b)
    requires forall k :: k < n && k in a ==> a[k].balance == b[k].balance
    ensures Total(a, n) == Total(b, n)
  {
    if n > 0 {
      TotalFrame(a, b, n - 1);
    }
  }

  /** Replacing one row changes the total by the change of its balance. */
  lemma {:induction false} TotalUpdate(a: map<nat, AccountData>, n: nat, k: nat, row: AccountData)
    requires k in a && k < n
    ensures Total(a[k := row], n) == Total(a, n) - a[k].balance + row.balance
  {
    if k == n - 1 {
      TotalFrame(a[k := row], a, n - 1);
    } else {
      TotalUpdate(a, n - 1, k, row);
    }
  }
}
