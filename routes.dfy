/** The one HTTP handler with logic of its own: `POST /api/transactions`
    answers 404 for an unknown fund id and otherwise records the buy and
    answers 201 with the stored transaction. */
module Routes {
  import opened Wrappers
  import opened Schema
  import opened Ledger
  import opened Storage

  /** The handler's refusal: status 404, "Fund not found". */
  datatype RouteError = FundNotFound

  /** The fund-exists guard in front of `createTransaction`. A refused
      request leaves the store as it was; an accepted one is exactly
      `CreateTransaction`, and because the guard admits only catalog funds
      every holding keeps pointing into the catalog. */
  method PostTransaction(storage: MemStorage, insertTransaction: InsertTransaction, now: nat)
      returns (r: Result<Transaction, RouteError>)
    requires storage.Valid() && storage.Consistent() && storage.HoldingsInCatalog()
    requires insertTransaction.amount > 0.0 && insertTransaction.shares > 0.0
    modifies storage
    ensures storage.Valid() && storage.Consistent() && storage.HoldingsInCatalog()
    ensures r.Failure? <==> old(storage.GetFund(insertTransaction.fundId)).None?
    ensures r.Failure? ==> unchanged(storage)
    ensures r.Success? ==>
      && r.value == Transaction(old(storage.currentTransactionId), insertTransaction.fundId, insertTransaction.amount,
                                insertTransaction.shares, insertTransaction.navAtPurchase, Completed, now)
      && storage.TransactionLog() == old(storage.TransactionLog()) + [r.value]
      && storage.funds == old(storage.funds)
      && (storage.holdings, storage.currentHoldingId) == Absorb(old(storage.holdings), old(storage.currentHoldingId), r.value, now)
  {
    var fund := storage.GetFund(insertTransaction.fundId);
    if fund.None? {
      return Failure(FundNotFound);
    }
    assert storage.NonNegativeShares() by {
      forall k | k in storage.holdings
        ensures storage.holdings[k].totalShares >= 0.0
      {
        assert Conserved(storage.holdings[k], storage.TransactionLog());
      }
    }
    ghost var holdings0, next0 := storage.holdings, storage.currentHoldingId;
    var transaction := storage.CreateTransaction(insertTransaction, now);
    AbsorbStaysInCatalog(holdings0, next0, transaction, now, storage.funds);
    r := Success(transaction);
  }
}
