/** The in-memory store: three maps keyed by auto-incremented ids and the
    three counters that hand the ids out. Buying a fund records the
    transaction and then creates or updates that fund's holding. */
module Storage {
  import opened Wrappers
  import opened Seqs
  import opened Sorting
  import opened Schema
  import opened Ledger

  /** The ascending key under which `(a, b) => b.createdAt - a.createdAt`
      sorts: newest first. */
  function NewestFirst(t: Transaction): real
  {
    -(t.createdAt as real)
  }

  function CreatedAt(time: nat): Transaction -> bool
  {
    (t: Transaction) => t.createdAt == time
  }

  class MemStorage {
    var funds: map<int, Fund>
    var transactions: map<int, Transaction>
    var holdings: map<int, PortfolioHolding>
    var currentFundId: int
    var currentTransactionId: int
    var currentHoldingId: int

    /** The shape every operation keeps: each map holds exactly the ids
        handed out so far (so its insertion order is id order), each record
        is stored under its own id, and no two holdings share a fund. */
    ghost predicate Valid()
      reads this
    {
      && currentFundId >= 1 && currentTransactionId >= 1
      && (forall k :: k in funds <==> 1 <= k < currentFundId)
      && (forall k :: k in funds ==> funds[k].id == k)
      && (forall k :: k in transactions <==> 1 <= k < currentTransactionId)
      && (forall k :: k in transactions ==> transactions[k].id == k)
      && HoldingTable(holdings, currentHoldingId)
    }

    /** The ledger invariant buying keeps: see `Balanced`. */
    ghost predicate Consistent()
      reads this
      requires Valid()
    {
      Balanced(TransactionLog(), holdings)
    }

    /** What the weighted-average update needs of the current holdings. */
    ghost predicate NonNegativeShares()
      reads this
    {
      forall k :: k in holdings ==> holdings[k].totalShares >= 0.0
    }

    /** Every holding's fund is in the catalog. */
    ghost predicate HoldingsInCatalog()
      reads this
    {
      forall k :: k in holdings ==> holdings[k].fundId in funds
    }

    /** The store of `new MemStorage()`: the catalog is `seed`, created in
        order at time `now`, and nothing has been bought. */
    constructor (seed: seq<InsertFund>, now: nat)
      ensures Valid() && Consistent() && HoldingsInCatalog()
      ensures currentTransactionId == 1 && currentHoldingId == 1
      ensures forall k :: k in funds <==> 1 <= k <= |seed|
      ensures forall k :: k in funds ==> funds[k] == FundFrom(seed[k - 1], k, now)
      ensures transactions == map[] && holdings == map[]
    {
      funds := map[];
      transactions := map[];
      holdings := map[];
      currentFundId := 1;
      currentTransactionId := 1;
      currentHoldingId := 1;
      new;
      InitializeFunds(seed, now);
    }

    /** `initializeFunds`: creates the seed funds one by one, in order, so
        seed fund i is stored under id i + 1. */
    method InitializeFunds(seed: seq<InsertFund>, now: nat)
      requires Valid() && funds == map[] && currentFundId == 1
      modifies this
      ensures Valid()
      ensures forall k :: k in funds <==> 1 <= k <= |seed|
      ensures forall k :: k in funds ==> funds[k] == FundFrom(seed[k - 1], k, now)
      ensures currentFundId == |seed| + 1
      ensures transactions == old(transactions) && currentTransactionId == old(currentTransactionId)
      ensures holdings == old(holdings) && currentHoldingId == old(currentHoldingId)
    {
      for i := 0 to |seed|
        invariant Valid() && currentFundId == i + 1
        invariant transactions == old(transactions) && currentTransactionId == old(currentTransactionId)
        invariant holdings == old(holdings) && currentHoldingId == old(currentHoldingId)
        invariant forall k :: k in funds ==> funds[k] == FundFrom(seed[k - 1], k, now)
      {
        var _ := CreateFund(seed[i], now);
      }
    }

    /** `Array.from(this.funds.values())`: the catalog in id order. */
    function GetAllFunds(): (r: seq<Fund>)
      reads this
      requires Valid()
      ensures |r| == currentFundId - 1
      ensures forall i :: 0 <= i < |r| ==> r[i] == funds[i + 1] && r[i].id == i + 1
    {
      DenseValues(funds, currentFundId - 1)
    }

    /** `this.funds.get(id)`. */
    function GetFund(id: int): (r: Option<Fund>)
      reads this
      requires Valid()
      ensures r.Some? <==> 1 <= id < currentFundId
      ensures r.Some? ==> r.value.id == id && r.value == funds[id]
    {
      if id in funds then Some(funds[id]) else None
    }

    /** `Array.from(this.transactions.values())`: every transaction in the
        order it was created. */
    function TransactionLog(): (r: seq<Transaction>)
      reads this
      requires Valid()
      ensures |r| == currentTransactionId - 1
      ensures forall i :: 0 <= i < |r| ==> r[i] == transactions[i + 1] && r[i].id == i + 1
    {
      DenseValues(transactions, currentTransactionId - 1)
    }

    /** The transactions of one fund: exactly the stored transactions of
        that fund, in creation order. */
    function GetTransactionsByFund(fundId: int): (r: seq<Transaction>)
      reads this
      requires Valid()
      ensures forall t :: t in r ==> t.fundId == fundId && t.id in transactions && transactions[t.id] == t
      ensures forall k :: k in transactions && transactions[k].fundId == fundId ==> transactions[k] in r
    {
      var log := TransactionLog();
      forall k | k in transactions && transactions[k].fundId == fundId
        ensures transactions[k] in ByFund(log, fundId)
      {
        assert log[k - 1] == transactions[k];
        FilterKeeps(log, FundIs(fundId), transactions[k]);
      }
      ByFund(log, fundId)
    }

    /** The fund's transactions are the log's transactions of that fund
        with their multiplicities, in creation order. */
    lemma GetTransactionsByFundInOrder(fundId: int)
      requires Valid()
      ensures Selects(GetTransactionsByFund(fundId), TransactionLog(), FundIs(fundId))
    {
      FilterSelects(TransactionLog(), FundIs(fundId));
    }

    /** Every transaction, newest first. */
    function GetAllTransactions(): (r: seq<Transaction>)
      reads this
      requires Valid()
      ensures multiset(r) == multiset(TransactionLog())
      ensures forall i, j :: 0 <= i < j < |r| ==> r[i].createdAt >= r[j].createdAt
    {
      var r := SortBy(TransactionLog(), NewestFirst);
      assert forall i, j :: 0 <= i < j < |r| ==> NewestFirst(r[i]) <= NewestFirst(r[j]);
      r
    }

    /** Transactions created at the same time stay in creation order. */
    lemma GetAllTransactionsStable(time: nat)
      requires Valid()
      ensures Filter(GetAllTransactions(), CreatedAt(time)) == Filter(TransactionLog(), CreatedAt(time))
    {
      SortByStable(TransactionLog(), NewestFirst, -(time as real), CreatedAt(time));
    }

    /** `Array.from(this.holdings.values())`: the holdings in the order they
        were opened. */
    function GetAllHoldings(): (r: seq<PortfolioHolding>)
      reads this
      requires Valid()
      ensures |r| == currentHoldingId - 1
      ensures forall i :: 0 <= i < |r| ==> r[i] == holdings[i + 1] && r[i].id == i + 1
    {
      DenseValues(holdings, currentHoldingId - 1)
    }

    /** The holding of one fund, if the fund is held. */
    function GetPortfolioHolding(fundId: int): (r: Option<PortfolioHolding>)
      reads this
      requires Valid()
      ensures r.None? <==> forall k :: k in holdings ==> holdings[k].fundId != fundId
      ensures r.Some? ==> r.value.id in holdings && holdings[r.value.id] == r.value && r.value.fundId == fundId
    {
      HoldingOfFund(holdings, currentHoldingId - 1, fundId)
    }

    /** Adds a fund to the catalog under the next fund id. */
    method CreateFund(insertFund: InsertFund, now: nat) returns (fund: Fund)
      requires Valid()
      modifies this
      ensures Valid()
      ensures fund == FundFrom(insertFund, old(currentFundId), now)
      ensures funds == old(funds)[fund.id := fund] && currentFundId == old(currentFundId) + 1
      ensures transactions == old(transactions) && currentTransactionId == old(currentTransactionId)
      ensures holdings == old(holdings) && currentHoldingId == old(currentHoldingId)
      ensures old(GetFund(fund.id)) == None && GetFund(fund.id) == Some(fund)
      ensures GetAllFunds() == old(GetAllFunds()) + [fund]
    {
      var id := currentFundId;
      currentFundId := currentFundId + 1;
      fund := FundFrom(insertFund, id, now);
      funds := funds[id := fund];
      DenseValuesAppend(old(funds), id - 1, fund);
    }

    /** Records a completed buy under the next transaction id and folds it
        into the fund's holding. */
    method CreateTransaction(insertTransaction: InsertTransaction, now: nat) returns (transaction: Transaction)
      requires Valid() && Consistent()
      requires insertTransaction.amount > 0.0 && insertTransaction.shares > 0.0
      modifies this
      ensures Valid() && Consistent()
      ensures transaction == Transaction(old(currentTransactionId), insertTransaction.fundId, insertTransaction.amount,
                                         insertTransaction.shares, insertTransaction.navAtPurchase, Completed, now)
      ensures transactions == old(transactions)[transaction.id := transaction]
      ensures currentTransactionId == old(currentTransactionId) + 1
      ensures TransactionLog() == old(TransactionLog()) + [transaction]
      ensures funds == old(funds) && currentFundId == old(currentFundId)
      ensures (holdings, currentHoldingId) == Absorb(old(holdings), old(currentHoldingId), transaction, now)
    {
      ghost var log0 := TransactionLog();
      ghost var hm0, hid0 := holdings, currentHoldingId;
      transaction := LogTransaction(insertTransaction, now);
      ghost var absorbed := Absorb(hm0, hid0, transaction, now);
      AbsorbBalanced(log0, hm0, hid0, transaction, now);
      UpdatePortfolioAfterTransaction(transaction, now);
      assert holdings == absorbed.0;
    }

    /** The logging half of `createTransaction`: stores the completed buy
        under the next transaction id, after every earlier one. */
    method LogTransaction(insertTransaction: InsertTransaction, now: nat) returns (transaction: Transaction)
      requires Valid()
      modifies this
      ensures Valid()
      ensures transaction == Transaction(old(currentTransactionId), insertTransaction.fundId, insertTransaction.amount,
                                         insertTransaction.shares, insertTransaction.navAtPurchase, Completed, now)
      ensures transactions == old(transactions)[transaction.id := transaction]
      ensures currentTransactionId == old(currentTransactionId) + 1
      ensures TransactionLog() == old(TransactionLog()) + [transaction]
      ensures funds == old(funds) && currentFundId == old(currentFundId)
      ensures holdings == old(holdings) && currentHoldingId == old(currentHoldingId)
    {
      var id := currentTransactionId;
      currentTransactionId := currentTransactionId + 1;
      transaction := Transaction(id, insertTransaction.fundId, insertTransaction.amount,
                                 insertTransaction.shares, insertTransaction.navAtPurchase, Completed, now);
      transactions := transactions[id := transaction];
      DenseValuesAppend(old(transactions), id - 1, transaction);
    }

    /** Creates or updates the holding of the transaction's fund with the
        weighted-average cost rule. */
    method UpdatePortfolioAfterTransaction(transaction: Transaction, now: nat)
      requires Valid() && NonNegativeShares()
      requires transaction.shares > 0.0
      modifies this
      ensures Valid()
      ensures funds == old(funds) && currentFundId == old(currentFundId)
      ensures transactions == old(transactions) && currentTransactionId == old(currentTransactionId)
      ensures (holdings, currentHoldingId) == Absorb(old(holdings), old(currentHoldingId), transaction, now)
    {
      var existingHolding := GetPortfolioHolding(transaction.fundId);
      if existingHolding.Some? {
        var e := existingHolding.value;
        var newTotalShares := e.totalShares + transaction.shares;
        var newTotalInvested := e.totalInvested + transaction.amount;
        var newAverageCost := newTotalInvested / newTotalShares;
        var updatedHolding := InsertPortfolioHolding(transaction.fundId, newTotalShares, newTotalInvested, newAverageCost);
        assert updatedHolding == BuyInto(e, transaction);
        var _ := UpdatePortfolioHolding(updatedHolding, now);
      } else {
        var averageCost := transaction.amount / transaction.shares;
        var newHolding := InsertPortfolioHolding(transaction.fundId, transaction.shares, transaction.amount, averageCost);
        assert newHolding == OpenWith(transaction);
        var _ := UpdatePortfolioHolding(newHolding, now);
      }
    }

    /** Upserts the holding of `insertHolding.fundId`: an existing holding
        keeps its id and takes the new figures, otherwise a holding is
        opened under the next holding id. */
    method UpdatePortfolioHolding(insertHolding: InsertPortfolioHolding, now: nat) returns (holding: PortfolioHolding)
      requires Valid()
      modifies this
      ensures Valid()
      ensures funds == old(funds) && currentFundId == old(currentFundId)
      ensures transactions == old(transactions) && currentTransactionId == old(currentTransactionId)
      ensures match HoldingOfFund(old(holdings), old(currentHoldingId) - 1, insertHolding.fundId)
                case Some(e) => holding == HoldingFrom(insertHolding, e.id, now) && currentHoldingId == old(currentHoldingId)
                case None => holding == HoldingFrom(insertHolding, old(currentHoldingId), now) && currentHoldingId == old(currentHoldingId) + 1
      ensures holdings == old(holdings)[holding.id := holding]
      ensures GetPortfolioHolding(insertHolding.fundId) == Some(holding)
    {
      var existingHolding := GetPortfolioHolding(insertHolding.fundId);
      match existingHolding {
        case Some(e) =>
          holding := HoldingFrom(insertHolding, e.id, now);
          ReplaceKeepsTable(holdings, currentHoldingId, holding);
          holdings := holdings[e.id := holding];
        case None =>
          var id := currentHoldingId;
          holding := HoldingFrom(insertHolding, id, now);
          OpenKeepsTable(holdings, currentHoldingId, holding);
          currentHoldingId := currentHoldingId + 1;
          holdings := holdings[id := holding];
      }
      assert holding.id in holdings && holdings[holding.id] == holding;
      ghost var found := GetPortfolioHolding(insertHolding.fundId);
      assert found.Some? && holdings[found.value.id].fundId == holdings[holding.id].fundId;
    }

    /** Totals over the holdings whose fund is in the catalog, the gain
        against the invested total (zero when nothing is invested) and a
        fixed 0.76% daily change. */
    method GetPortfolioSummary() returns (summary: PortfolioSummary)
      requires Valid()
      ensures summary.totalValue == ValueOver(GetAllHoldings(), GetAllFunds())
      ensures summary.totalInvested == InvestedOver(GetAllHoldings(), GetAllFunds())
      ensures summary.totalGainLoss == summary.totalValue - summary.totalInvested
      ensures summary.totalInvested > 0.0 ==> summary.totalGainLossPercent == summary.totalGainLoss / summary.totalInvested * 100.0
      ensures summary.totalInvested <= 0.0 ==> summary.totalGainLossPercent == 0.0
      ensures summary.dailyChange == summary.totalValue * 0.0076 && summary.dailyChangePercent == 0.76
      ensures summary.holdingsCount == |GetAllHoldings()|
    {
      var hs := GetAllHoldings();
      var fs := GetAllFunds();
      var totalValue, totalInvested := 0.0, 0.0;
      for i := 0 to |hs|
        invariant totalValue == ValueOver(hs[..i], fs)
        invariant totalInvested == InvestedOver(hs[..i], fs)
      {
        assert hs[..i + 1][..i] == hs[..i];
        var fund := FundById(fs, hs[i].fundId);
        if fund.Some? {
          var currentValue := hs[i].totalShares * fund.value.nav;
          totalValue := totalValue + currentValue;
          totalInvested := totalInvested + hs[i].totalInvested;
        }
      }
      assert hs[..|hs|] == hs;
      var totalGainLoss := totalValue - totalInvested;
      var totalGainLossPercent := if totalInvested > 0.0 then totalGainLoss / totalInvested * 100.0 else 0.0;
      var dailyChange := totalValue * 0.0076;
      var dailyChangePercent := 0.76;
      summary := PortfolioSummary(totalValue, totalInvested, totalGainLoss, totalGainLossPercent,
                                  dailyChange, dailyChangePercent, |hs|);
    }

    /** Every catalog fund in catalog order, joined with its fund's
        holding when there is one and marked to market at the fund's NAV. */
    function GetFundsWithHoldings(): (r: seq<FundWithHolding>)
      reads this
      requires Valid()
      requires forall k :: k in holdings ==> holdings[k].totalInvested != 0.0
      ensures |r| == currentFundId - 1
      ensures forall i :: 0 <= i < |r| ==> r[i].fund == funds[i + 1]
      ensures forall i :: 0 <= i < |r| ==> (r[i].FundOnly? <==> forall h :: h in GetAllHoldings() ==> h.fundId != i + 1)
      ensures forall i :: 0 <= i < |r| && r[i].FundHeld? ==>
                && r[i].holding in GetAllHoldings()
                && r[i].holding.fundId == i + 1
                && r[i].currentValue == r[i].holding.totalShares * r[i].fund.nav
                && r[i].gainLoss == r[i].currentValue - r[i].holding.totalInvested
                && r[i].gainLossPercent * r[i].holding.totalInvested == r[i].gainLoss * 100.0
    {
      var hs := GetAllHoldings();
      assert forall h :: h in hs ==> h.totalInvested != 0.0;
      Join(GetAllFunds(), hs)
    }

    /** Each holding's totals are the sums of shares and amounts over
        `GetTransactionsByFund` of its fund, and its average cost is their
        ratio. */
    lemma HoldingTotals(k: int)
      requires Valid() && Consistent() && k in holdings
      ensures holdings[k].totalShares == SumOf(GetTransactionsByFund(holdings[k].fundId), SharesOf)
      ensures holdings[k].totalInvested == SumOf(GetTransactionsByFund(holdings[k].fundId), AmountOf)
      ensures holdings[k].totalShares > 0.0
      ensures holdings[k].averageCost == holdings[k].totalInvested / holdings[k].totalShares
    {
      var h, log := holdings[k], TransactionLog();
      assert Conserved(h, log);
      BoughtIsSumByFund(log, h.fundId);
      assert GetTransactionsByFund(h.fundId) == ByFund(log, h.fundId);
    }

    /** With every holding's fund in the catalog, the summary's invested
        total is the sum of every amount ever bought. */
    lemma InvestedIsSumOfAmounts()
      requires Valid() && Consistent() && HoldingsInCatalog()
      ensures InvestedOver(GetAllHoldings(), GetAllFunds()) == SumOf(TransactionLog(), AmountOf)
    {
      var hs, fs, log := GetAllHoldings(), GetAllFunds(), TransactionLog();
      forall i | 0 <= i < |hs|
        ensures FundById(fs, hs[i].fundId).Some?
        ensures hs[i].totalInvested == AmountBought(log, hs[i].fundId)
      {
        assert hs[i] == holdings[i + 1];
        var f := hs[i].fundId;
        assert fs[f - 1].id == f;
      }
      forall i, j | 0 <= i < j < |hs|
        ensures hs[i].fundId != hs[j].fundId
      {
        assert hs[i] == holdings[i + 1] && hs[j] == holdings[j + 1];
      }
      forall t | t in log
        ensures exists i :: 0 <= i < |hs| && hs[i].fundId == t.fundId
      {
        var j :| j in holdings && holdings[j].fundId == t.fundId;
        assert hs[j - 1] == holdings[j];
      }
      InvestedIsLedgerTotal(hs, fs, log);
    }
  }
}
