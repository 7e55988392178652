/** The accounting rules of the in-memory store, stated on values: the order
    in which a map with keys 1..n lists its values, the transactions of one
    fund, the upserts a buy issues, the conservation invariant of a holding,
    the portfolio sums and the fund-with-holding join. */
module Ledger {
  import opened Wrappers
  import opened Seqs
  import opened Schema

  /** `Array.from(m.values())` for a map whose keys 1..n were inserted in
      increasing order and never deleted: its values in key order. */
  function DenseValues<T>(m: map<int, T>, n: nat): (r: seq<T>)
    requires forall k :: 1 <= k <= n ==> k in m
    ensures |r| == n
    ensures forall i :: 0 <= i < n ==> r[i] == m[i + 1]
  {
    if n == 0 then [] else DenseValues(m, n - 1) + [m[n]]
  }

  /** Inserting the next key appends its value. */
  lemma DenseValuesAppend<T>(m: map<int, T>, n: nat, v: T)
    requires forall k :: 1 <= k <= n ==> k in m
    ensures DenseValues(m[n + 1 := v], n + 1) == DenseValues(m, n) + [v]
  {
    var r, r' := DenseValues(m, n), DenseValues(m[n + 1 := v], n + 1);
    assert forall i :: 0 <= i < n ==> r'[i] == r[i];
  }

  /** Overwriting an existing key replaces its value in place. */
  lemma DenseValuesUpdate<T>(m: map<int, T>, n: nat, k: int, v: T)
    requires forall j :: 1 <= j <= n ==> j in m
    requires 1 <= k <= n
    ensures DenseValues(m[k := v], n) == DenseValues(m, n)[k - 1 := v]
  {
  }

  function FundIs(fundId: int): Transaction -> bool
  {
    (t: Transaction) => t.fundId == fundId
  }

  function FundIsNot(fundId: int): Transaction -> bool
  {
    (t: Transaction) => t.fundId != fundId
  }

  /** `transactions.filter(t => t.fundId === fundId)`. */
  function ByFund(txs: seq<Transaction>, fundId: int): (r: seq<Transaction>)
    ensures forall t :: t in r ==> t in txs && t.fundId == fundId
  {
    Filter(txs, FundIs(fundId))
  }

  /** Appending a transaction extends exactly its own fund's list. */
  lemma ByFundAppend(txs: seq<Transaction>, t: Transaction, fundId: int)
    ensures ByFund(txs + [t], fundId) == ByFund(txs, fundId) + (if t.fundId == fundId then [t] else [])
  {
    assert (txs + [t])[..|txs|] == txs;
  }

  /** The upsert `updatePortfolioAfterTransaction` issues for a buy of a
      fund already held: both totals grow by the buy and the average cost is
      re-derived from the new totals. */
  function BuyInto(e: PortfolioHolding, t: Transaction): InsertPortfolioHolding
    requires e.totalShares + t.shares != 0.0
  {
    var totalShares := e.totalShares + t.shares;
    var totalInvested := e.totalInvested + t.amount;
    InsertPortfolioHolding(t.fundId, totalShares, totalInvested, totalInvested / totalShares)
  }

  /** The upsert for the first buy of a fund: the buy itself, at
      amount / shares. */
  function OpenWith(t: Transaction): InsertPortfolioHolding
    requires t.shares != 0.0
  {
    InsertPortfolioHolding(t.fundId, t.shares, t.amount, t.amount / t.shares)
  }

  /** Σ shares over the transactions of fund `fundId`. */
  function SharesBought(txs: seq<Transaction>, fundId: int): real
  {
    if txs == [] then 0.0
    else
      var last := txs[|txs| - 1];
      SharesBought(txs[..|txs| - 1], fundId) + (if last.fundId == fundId then last.shares else 0.0)
  }

  /** Σ amount over the transactions of fund `fundId`. */
  function AmountBought(txs: seq<Transaction>, fundId: int): real
  {
    if txs == [] then 0.0
    else
      var last := txs[|txs| - 1];
      AmountBought(txs[..|txs| - 1], fundId) + (if last.fundId == fundId then last.amount else 0.0)
  }

  /** The per-fund totals are the sums over `ByFund`, the list
      `getTransactionsByFund` returns. */
  lemma {:induction false} BoughtIsSumByFund(txs: seq<Transaction>, fundId: int)
    ensures SharesBought(txs, fundId) == SumOf(ByFund(txs, fundId), SharesOf)
    ensures AmountBought(txs, fundId) == SumOf(ByFund(txs, fundId), AmountOf)
  {
    if txs != [] {
      var init, last := txs[..|txs| - 1], txs[|txs| - 1];
      BoughtIsSumByFund(init, fundId);
      var mine := ByFund(init, fundId);
      assert txs == init + [last];
      ByFundAppend(init, last, fundId);
      if last.fundId == fundId {
        var ext := mine + [last];
        assert ByFund(txs, fundId) == ext;
        assert ext[..|mine|] == mine && ext[|mine|] == last;
        assert SumOf(ext, SharesOf) == SumOf(mine, SharesOf) + last.shares;
        assert SumOf(ext, AmountOf) == SumOf(mine, AmountOf) + last.amount;
      } else {
        assert ByFund(txs, fundId) == mine;
      }
    }
  }

  lemma BoughtAppend(txs: seq<Transaction>, t: Transaction, fundId: int)
    ensures SharesBought(txs + [t], fundId) == SharesBought(txs, fundId) + (if t.fundId == fundId then t.shares else 0.0)
    ensures AmountBought(txs + [t], fundId) == AmountBought(txs, fundId) + (if t.fundId == fundId then t.amount else 0.0)
  {
    assert (txs + [t])[..|txs|] == txs;
  }

  /** A fund nobody bought has bought nothing. */
  lemma {:induction false} NothingBought(txs: seq<Transaction>, fundId: int)
    requires forall x :: x in txs ==> x.fundId != fundId
    ensures SharesBought(txs, fundId) == 0.0 && AmountBought(txs, fundId) == 0.0
  {
    if txs != [] {
      assert forall x :: x in txs[..|txs| - 1] ==> x in txs;
      NothingBought(txs[..|txs| - 1], fundId);
      assert txs[|txs| - 1] in txs;
    }
  }

  /** A holding agrees with the ledger: its totals are the sums over its
      fund's transactions, they are positive, and the average cost is their
      ratio. */
  ghost predicate Conserved(h: PortfolioHolding, txs: seq<Transaction>)
  {
    && h.totalShares == SharesBought(txs, h.fundId)
    && h.totalInvested == AmountBought(txs, h.fundId)
    && h.totalShares > 0.0
    && h.totalInvested > 0.0
    && h.averageCost == h.totalInvested / h.totalShares
  }

  /** A later buy of a held fund keeps that holding conserved. */
  lemma ConservedAfterBuy(e: PortfolioHolding, txs: seq<Transaction>, t: Transaction, id: int, now: nat)
    requires Conserved(e, txs)
    requires t.fundId == e.fundId && t.shares > 0.0 && t.amount > 0.0
    ensures Conserved(HoldingFrom(BuyInto(e, t), id, now), txs + [t])
  {
    BoughtAppend(txs, t, e.fundId);
  }

  /** The first buy of a fund nobody bought before opens a conserved
      holding. */
  lemma ConservedAfterFirstBuy(txs: seq<Transaction>, t: Transaction, id: int, now: nat)
    requires forall x :: x in txs ==> x.fundId != t.fundId
    requires t.shares > 0.0 && t.amount > 0.0
    ensures Conserved(HoldingFrom(OpenWith(t), id, now), txs + [t])
  {
    NothingBought(txs, t.fundId);
    BoughtAppend(txs, t, t.fundId);
  }

  /** A buy of another fund leaves a holding conserved. */
  lemma ConservedAfterOtherBuy(h: PortfolioHolding, txs: seq<Transaction>, t: Transaction)
    requires Conserved(h, txs) && t.fundId != h.fundId
    ensures Conserved(h, txs + [t])
  {
    BoughtAppend(txs, t, h.fundId);
  }

  /** The average cost of a conserved holding lies between the cheapest and
      the dearest price per share paid for it. */
  lemma AverageCostBetweenPrices(h: PortfolioHolding, txs: seq<Transaction>, lo: real, hi: real)
    requires Conserved(h, txs)
    requires forall t :: t in txs && t.fundId == h.fundId ==> lo * t.shares <= t.amount <= hi * t.shares
    ensures lo <= h.averageCost <= hi
  {
    PriceFloor(txs, h.fundId, lo);
    PriceCeiling(txs, h.fundId, hi);
    RatioBetween(h.totalInvested, h.totalShares, lo, hi);
  }

  lemma RatioBetween(a: real, b: real, lo: real, hi: real)
    requires b > 0.0 && lo * b <= a <= hi * b
    ensures lo <= a / b <= hi
  {
    assert a / b * b == a;
  }

  /** Buys at no less than `c` a share total at least `c` a share. */
  lemma {:induction false} PriceFloor(s: seq<Transaction>, fundId: int, c: real)
    requires forall t :: t in s && t.fundId == fundId ==> c * t.shares <= t.amount
    ensures c * SharesBought(s, fundId) <= AmountBought(s, fundId)
  {
    if s != [] {
      var init, t := s[..|s| - 1], s[|s| - 1];
      assert forall x :: x in init ==> x in s;
      PriceFloor(init, fundId, c);
      assert t in s;
      var sh := SharesBought(init, fundId);
      assert c * (sh + t.shares) == c * sh + c * t.shares;
    }
  }

  /** Buys at no more than `c` a share total at most `c` a share. */
  lemma {:induction false} PriceCeiling(s: seq<Transaction>, fundId: int, c: real)
    requires forall t :: t in s && t.fundId == fundId ==> t.amount <= c * t.shares
    ensures AmountBought(s, fundId) <= c * SharesBought(s, fundId)
  {
    if s != [] {
      var init, t := s[..|s| - 1], s[|s| - 1];
      assert forall x :: x in init ==> x in s;
      PriceCeiling(init, fundId, c);
      assert t in s;
      var sh := SharesBought(init, fundId);
      assert c * (sh + t.shares) == c * sh + c * t.shares;
    }
  }

  function HoldsFund(fundId: int): PortfolioHolding -> bool
  {
    (h: PortfolioHolding) => h.fundId == fundId
  }

  /** `holdings.find(h => h.fundId === fundId)`: the first holding of the
      fund, if any. */
  function HoldingFor(hs: seq<PortfolioHolding>, fundId: int): (r: Option<PortfolioHolding>)
    ensures r.None? <==> forall h :: h in hs ==> h.fundId != fundId
    ensures r.Some? ==> r.value in hs && r.value.fundId == fundId
    ensures r.Some? ==> FirstMatch(hs, HoldsFund(fundId), r.value)
  {
    Find(hs, HoldsFund(fundId))
  }

  /** The holding of `fundId` among holdings stored under their own ids
      1..n, looked up as `Array.from(holdings.values()).find(...)`. */
  function HoldingOfFund(holdings: map<int, PortfolioHolding>, n: nat, fundId: int): (r: Option<PortfolioHolding>)
    requires forall k :: 1 <= k <= n ==> k in holdings && holdings[k].id == k
    ensures r.None? <==> forall k :: 1 <= k <= n ==> holdings[k].fundId != fundId
    ensures r.Some? ==> 1 <= r.value.id <= n && holdings[r.value.id] == r.value && r.value.fundId == fundId
    ensures r.Some? ==> FirstMatch(DenseValues(holdings, n), HoldsFund(fundId), r.value)
  {
    var hs := DenseValues(holdings, n);
    assert forall k :: 1 <= k <= n ==> hs[k - 1] == holdings[k];
    HoldingFor(hs, fundId)
  }

  /** The holding the lookup finds is the fund's holding with the
      smallest id. */
  lemma HoldingOfFundSmallestId(holdings: map<int, PortfolioHolding>, n: nat, fundId: int)
    requires forall k :: 1 <= k <= n ==> k in holdings && holdings[k].id == k
    ensures var r := HoldingOfFund(holdings, n, fundId);
      r.Some? ==> forall k :: 1 <= k < r.value.id ==> holdings[k].fundId != fundId
  {
    var r := HoldingOfFund(holdings, n, fundId);
    if r.Some? {
      var hs := DenseValues(holdings, n);
      FirstMatchAt(hs, HoldsFund(fundId), r.value);
      var i :| 0 <= i < |hs| && hs[i] == r.value && HoldsFund(fundId)(r.value)
               && forall j :: 0 <= j < i ==> !HoldsFund(fundId)(hs[j]);
      assert hs[i] == holdings[i + 1];
      forall k | 1 <= k < r.value.id ensures holdings[k].fundId != fundId {
        assert hs[k - 1] == holdings[k];
      }
    }
  }

  /** The holdings map of a store whose holding counter is `next`: exactly
      the ids 1..next-1, each holding under its own id, one per fund. */
  ghost predicate HoldingTable(hm: map<int, PortfolioHolding>, next: int)
  {
    && next >= 1
    && (forall k :: k in hm <==> 1 <= k < next)
    && (forall k :: k in hm ==> hm[k].id == k)
    && (forall k, k' :: k in hm && k' in hm && hm[k].fundId == hm[k'].fundId ==> k == k')
  }

  /** Overwriting a holding by one with the same id and fund keeps the table. */
  lemma ReplaceKeepsTable(hm: map<int, PortfolioHolding>, next: int, h: PortfolioHolding)
    requires HoldingTable(hm, next)
    requires h.id in hm && hm[h.id].fundId == h.fundId
    ensures HoldingTable(hm[h.id := h], next)
  {
  }

  /** Opening a holding of an unheld fund under the next id keeps the table. */
  lemma OpenKeepsTable(hm: map<int, PortfolioHolding>, next: int, h: PortfolioHolding)
    requires HoldingTable(hm, next)
    requires h.id == next && forall k :: k in hm ==> hm[k].fundId != h.fundId
    ensures HoldingTable(hm[next := h], next + 1)
  {
  }

  /** The holdings map and holding counter after the buy `t` at time `now`
      (`updatePortfolioAfterTransaction` followed by the upsert): a held
      fund's holding absorbs the buy under its own id, an unheld fund gets a
      holding under the next id. Nothing else changes, and the table keeps
      one holding per fund. */
  function Absorb(hm: map<int, PortfolioHolding>, next: int, t: Transaction, now: nat): (r: (map<int, PortfolioHolding>, int))
    requires HoldingTable(hm, next)
    requires t.shares > 0.0 && forall k :: k in hm ==> hm[k].totalShares >= 0.0
    ensures HoldingTable(r.0, r.1)
    ensures forall k :: k in hm && hm[k].fundId != t.fundId ==> k in r.0 && r.0[k] == hm[k]
    ensures forall k :: k in hm ==> k in r.0 && r.0[k].fundId == hm[k].fundId
    ensures exists k :: k in r.0 && r.0[k].fundId == t.fundId
    ensures r.1 == next <==> exists k :: k in hm && hm[k].fundId == t.fundId
    ensures r.1 == next || r.1 == next + 1
  {
    match HoldingOfFund(hm, next - 1, t.fundId)
    case Some(e) =>
      assert e.id in hm && hm[e.id].fundId == t.fundId;
      ReplaceKeepsTable(hm, next, HoldingFrom(BuyInto(e, t), e.id, now));
      (hm[e.id := HoldingFrom(BuyInto(e, t), e.id, now)], next)
    case None =>
      var position := HoldingFrom(OpenWith(t), next, now);
      OpenKeepsTable(hm, next, position);
      assert hm[next := position][next] == position;
      (hm[next := position], next + 1)
  }

  /** A buy of a fund in `catalog` keeps every holding's fund in `catalog`:
      the only holding it may add is the bought fund's. */
  lemma AbsorbStaysInCatalog<F>(hm: map<int, PortfolioHolding>, next: int, t: Transaction, now: nat, catalog: map<int, F>)
    requires HoldingTable(hm, next)
    requires t.shares > 0.0 && forall k :: k in hm ==> hm[k].totalShares >= 0.0
    requires forall k :: k in hm ==> hm[k].fundId in catalog
    requires t.fundId in catalog
    ensures forall k :: k in Absorb(hm, next, t, now).0 ==> Absorb(hm, next, t, now).0[k].fundId in catalog
  {
    var r := Absorb(hm, next, t, now);
    forall k | k in r.0
      ensures r.0[k].fundId in catalog
    {
      if k !in hm {
        match HoldingOfFund(hm, next - 1, t.fundId)
        case Some(e) =>
        case None =>
      }
    }
  }

  /** The ledger invariant: every logged transaction is a completed buy of
      a positive amount of shares, every bought fund has a holding, and
      every holding is conserved against the log. */
  ghost predicate Balanced(log: seq<Transaction>, hm: map<int, PortfolioHolding>)
  {
    && (forall t :: t in log ==> t.status == Completed && t.amount > 0.0 && t.shares > 0.0)
    && (forall t :: t in log ==> exists j :: j in hm && hm[j].fundId == t.fundId)
    && (forall j :: j in hm ==> Conserved(hm[j], log))
  }

  /** Logging a buy and absorbing it into the holdings keeps the ledger
      balanced. */
  lemma AbsorbBalanced(log: seq<Transaction>, hm: map<int, PortfolioHolding>, next: int, t: Transaction, now: nat)
    requires HoldingTable(hm, next) && Balanced(log, hm)
    requires t.status == Completed && t.amount > 0.0 && t.shares > 0.0
    ensures Balanced(log + [t], Absorb(hm, next, t, now).0)
  {
    var hm' := Absorb(hm, next, t, now).0;
    forall j | j in hm'
      ensures Conserved(hm'[j], log + [t])
    {
      AbsorbConserves(log, hm, next, t, now, j);
    }
  }

  /** After the buy, each holding agrees with the extended log: the bought
      fund's holding absorbed it, every other holding ignores it. */
  lemma AbsorbConserves(log: seq<Transaction>, hm: map<int, PortfolioHolding>, next: int, t: Transaction, now: nat, j: int)
    requires HoldingTable(hm, next) && Balanced(log, hm)
    requires t.status == Completed && t.amount > 0.0 && t.shares > 0.0
    requires j in Absorb(hm, next, t, now).0
    ensures Conserved(Absorb(hm, next, t, now).0[j], log + [t])
  {
    var hm' := Absorb(hm, next, t, now).0;
    var existing := HoldingOfFund(hm, next - 1, t.fundId);
    var bought := if existing.Some? then existing.value.id else next;
    if j == bought {
      match existing {
        case Some(e) =>
          ConservedAfterBuy(e, log, t, e.id, now);
        case None =>
          forall x | x in log
            ensures x.fundId != t.fundId
          {
            var i :| i in hm && hm[i].fundId == x.fundId;
          }
          ConservedAfterFirstBuy(log, t, next, now);
      }
    } else {
      assert hm'[j].fundId != t.fundId;
      ConservedAfterOtherBuy(hm'[j], log, t);
    }
  }

  /** `funds.find(f => f.id === id)`: the first fund with the id, if any. */
  function FundById(fs: seq<Fund>, id: int): (r: Option<Fund>)
    ensures r.None? <==> forall f :: f in fs ==> f.id != id
    ensures r.Some? ==> r.value in fs && r.value.id == id
    ensures r.Some? ==> FirstMatch(fs, HasId(id), r.value)
  {
    Find(fs, HasId(id))
  }

  function HasId(id: int): Fund -> bool
  {
    (f: Fund) => f.id == id
  }

  /** What a holding contributes to the portfolio's current value: its
      shares at the fund's NAV, or nothing when its fund is not in the
      catalog. */
  function ValueOf(h: PortfolioHolding, fs: seq<Fund>): real
  {
    match FundById(fs, h.fundId)
    case Some(fund) => h.totalShares * fund.nav
    case None => 0.0
  }

  /** What a holding contributes to the portfolio's invested total. */
  function InvestedOf(h: PortfolioHolding, fs: seq<Fund>): real
  {
    match FundById(fs, h.fundId)
    case Some(_) => h.totalInvested
    case None => 0.0
  }

  /** Σ current value over the holdings whose fund is in the catalog. */
  function ValueOver(hs: seq<PortfolioHolding>, fs: seq<Fund>): real
  {
    if hs == [] then 0.0 else ValueOver(hs[..|hs| - 1], fs) + ValueOf(hs[|hs| - 1], fs)
  }

  /** Σ invested over the holdings whose fund is in the catalog. */
  function InvestedOver(hs: seq<PortfolioHolding>, fs: seq<Fund>): real
  {
    if hs == [] then 0.0 else InvestedOver(hs[..|hs| - 1], fs) + InvestedOf(hs[|hs| - 1], fs)
  }

  /** When one holding per fund accounts for every transaction and every
      held fund is in the catalog, the portfolio's invested total is the sum
      of all amounts ever bought. */
  lemma {:induction false} InvestedIsLedgerTotal(hs: seq<PortfolioHolding>, fs: seq<Fund>, txs: seq<Transaction>)
    requires forall i :: 0 <= i < |hs| ==> FundById(fs, hs[i].fundId).Some?
    requires forall i :: 0 <= i < |hs| ==> hs[i].totalInvested == AmountBought(txs, hs[i].fundId)
    requires forall i, j :: 0 <= i < j < |hs| ==> hs[i].fundId != hs[j].fundId
    requires forall t :: t in txs ==> exists i :: 0 <= i < |hs| && hs[i].fundId == t.fundId
    ensures InvestedOver(hs, fs) == SumOf(txs, AmountOf)
  {
    forall i | 0 <= i < |hs|
      ensures hs[i].totalInvested == SumOf(ByFund(txs, hs[i].fundId), AmountOf)
    {
      BoughtIsSumByFund(txs, hs[i].fundId);
    }
    InvestedIsSum(hs, fs, txs);
  }

  lemma {:induction false} InvestedIsSum(hs: seq<PortfolioHolding>, fs: seq<Fund>, txs: seq<Transaction>)
    requires forall i :: 0 <= i < |hs| ==> FundById(fs, hs[i].fundId).Some?
    requires forall i :: 0 <= i < |hs| ==> hs[i].totalInvested == SumOf(ByFund(txs, hs[i].fundId), AmountOf)
    requires forall i, j :: 0 <= i < j < |hs| ==> hs[i].fundId != hs[j].fundId
    requires forall t :: t in txs ==> exists i :: 0 <= i < |hs| && hs[i].fundId == t.fundId
    ensures InvestedOver(hs, fs) == SumOf(txs, AmountOf)
  {
    if hs != [] {
      var init, h := hs[..|hs| - 1], hs[|hs| - 1];
      var g := h.fundId;
      var rest := Filter(txs, FundIsNot(g));
      forall i | 0 <= i < |init|
        ensures init[i].totalInvested == SumOf(ByFund(rest, init[i].fundId), AmountOf)
      {
        assert init[i] == hs[i];
        ByFundSkipping(txs, g, init[i].fundId);
      }
      forall t | t in rest
        ensures exists i :: 0 <= i < |init| && init[i].fundId == t.fundId
      {
        assert t in txs && t.fundId != g;
        var i :| 0 <= i < |hs| && hs[i].fundId == t.fundId;
        assert i != |hs| - 1;
        assert init[i] == hs[i];
      }
      InvestedIsSum(init, fs, rest);
      assert InvestedOf(h, fs) == SumOf(ByFund(txs, g), AmountOf);
      SumOfPartition(txs, FundIs(g), FundIsNot(g), AmountOf);
    }
  }

  /** Removing the transactions of fund `g` does not touch another fund's. */
  lemma ByFundSkipping(txs: seq<Transaction>, g: int, f: int)
    requires f != g
    ensures ByFund(Filter(txs, FundIsNot(g)), f) == ByFund(txs, f)
  {
    FilterFilter(txs, FundIsNot(g), FundIs(f));
  }

  /** One entry of `getFundsWithHoldings`. */
  function JoinHolding(fund: Fund, hs: seq<PortfolioHolding>): FundWithHolding
    requires forall h :: h in hs ==> h.totalInvested != 0.0
  {
    match HoldingFor(hs, fund.id)
    case None => FundOnly(fund)
    case Some(holding) =>
      var currentValue := holding.totalShares * fund.nav;
      var gainLoss := currentValue - holding.totalInvested;
      FundHeld(fund, holding, currentValue, gainLoss, gainLoss / holding.totalInvested * 100.0)
  }

  /** `funds.map(...)` of `getFundsWithHoldings`: one entry per catalog
      fund in catalog order, bare exactly when the fund is not held, and
      otherwise marked to market at its NAV. */
  function Join(fs: seq<Fund>, hs: seq<PortfolioHolding>): (r: seq<FundWithHolding>)
    requires forall h :: h in hs ==> h.totalInvested != 0.0
    ensures |r| == |fs|
    ensures forall i :: 0 <= i < |fs| ==> r[i].fund == fs[i]
    ensures forall i :: 0 <= i < |fs| ==> (r[i].FundOnly? <==> forall h :: h in hs ==> h.fundId != fs[i].id)
    ensures forall i :: 0 <= i < |fs| && r[i].FundHeld? ==>
              && r[i].holding in hs
              && r[i].holding.fundId == fs[i].id
              && r[i].currentValue == r[i].holding.totalShares * fs[i].nav
              && r[i].gainLoss == r[i].currentValue - r[i].holding.totalInvested
              && r[i].gainLossPercent * r[i].holding.totalInvested == r[i].gainLoss * 100.0
    ensures forall i :: 0 <= i < |fs| && r[i].FundHeld? ==> FirstMatch(hs, HoldsFund(fs[i].id), r[i].holding)
  {
    seq(|fs|, i requires 0 <= i < |fs| => JoinHolding(fs[i], hs))
  }
}
