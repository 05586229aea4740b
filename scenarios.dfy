/** The concrete cases of the unit tests, replayed against the service's
    contracts: a client proves each expected number from them alone. */
module Scenarios {
  import opened Results
  import opened Accounts
  import opened Banks
  import opened Stores
  import opened Transfers
  import opened Services

  /** 1000 and 2000, transfer 100: 900 and 2100, one transfer counted, two
      account saves and one bank save. */
  method TransferOfOneHundred() {
    var service := new AccountService(Fixture());
    assert ReviewBalance(service.State(), 1) == Ok(1000);
    assert ReviewBalance(service.State(), 2) == Ok(2000);
    var outcome;
    ghost var calls;
    outcome, calls := service.Transfer(1, 2, 100, 1);
    assert outcome == Pass;
    assert ReviewBalance(service.State(), 1) == Ok(900);
    assert ReviewBalance(service.State(), 2) == Ok(2100);
    assert ReviewTotalTransfers(service.State(), 1) == Ok(1);
    TransferSaveCounts(Fixture(), 1, 2, 100, 1);
    assert AccountSaves(calls) == 2 && BankSaves(calls) == 1;
  }

  /** 1000, transfer 1200: `NotEnoughMoney`, balances and counter unchanged,
      nothing saved. */
  method TransferOfTwelveHundred() {
    var service := new AccountService(Fixture());
    var outcome;
    ghost var calls;
    outcome, calls := service.Transfer(1, 2, 1200, 1);
    assert outcome == Fail(NotEnoughMoney);
    assert ReviewBalance(service.State(), 1) == Ok(1000);
    assert ReviewBalance(service.State(), 2) == Ok(2000);
    assert ReviewTotalTransfers(service.State(), 1) == Ok(0);
    TransferSaveCounts(Fixture(), 1, 2, 1200, 1);
    assert AccountSaves(calls) == 0 && BankSaves(calls) == 0;
  }

  /** Saving Karen with 3000 and no id gives her id 3; she is then found by it. */
  method SaveWithoutId() {
    var service := new AccountService(Fixture());
    var saved := service.Save(AccountData(None, "Karen", 3000));
    assert saved == AccountData(Some(3), "Karen", 3000);
    assert FindById(service.State(), 3) == Ok(saved);
    assert |FindAll(service.State())| == 3;
  }

  /** Deleting Brando: he is no longer found, and one account is left. */
  method DeleteExisting() {
    var service := new AccountService(Fixture());
    var outcome := service.DeleteById(2);
    assert outcome == Pass;
    assert FindById(service.State(), 2) == Err(NoSuchElement);
    assert |FindAll(service.State())| == 1;
    outcome := service.DeleteById(2);
    assert outcome == Fail(EmptyResult);
  }
}
