/** The records of the fund tracker. Decimal columns (NAV, amounts, shares,
    costs, expense ratio) are exact reals, the display string of the
    trailing-year return is replaced by the number it denotes, and
    timestamps are readings of a logical clock. */
module Schema {
  import opened Wrappers

  /** A fund of the catalog. `objective` and `aum` are nullable columns;
      `region` and `currency` have database defaults but are optional on
      insert, and the in-memory store applies no default, so a fund
      created without them has none. */
  datatype Fund = Fund(
    id: int,
    name: string,
    manager: string,
    nav: real,
    yearReturn: real,
    riskLevel: string,
    minInvestment: int,
    expenseRatio: real,
    objective: Option<string>,
    region: Option<string>,
    aum: Option<string>,
    currency: Option<string>,
    createdAt: nat)

  /** A fund as submitted for creation: every column except the id and the
      creation time, which the store assigns. */
  datatype InsertFund = InsertFund(
    name: string,
    manager: string,
    nav: real,
    yearReturn: real,
    riskLevel: string,
    minInvestment: int,
    expenseRatio: real,
    objective: Option<string>,
    region: Option<string>,
    aum: Option<string>,
    currency: Option<string>)

  /** A buy of `shares` shares of fund `fundId` for `amount`. */
  datatype Transaction = Transaction(
    id: int,
    fundId: int,
    amount: real,
    shares: real,
    navAtPurchase: real,
    status: string,
    createdAt: nat)

  /** A buy as submitted: no id, status or creation time yet. */
  datatype InsertTransaction = InsertTransaction(
    fundId: int,
    amount: real,
    shares: real,
    navAtPurchase: real)

  /** The running position in one fund. */
  datatype PortfolioHolding = PortfolioHolding(
    id: int,
    fundId: int,
    totalShares: real,
    totalInvested: real,
    averageCost: real,
    updatedAt: nat)

  /** A position as written by an upsert: no id or update time. */
  datatype InsertPortfolioHolding = InsertPortfolioHolding(
    fundId: int,
    totalShares: real,
    totalInvested: real,
    averageCost: real)

  /** A catalog fund, bare when nothing of it is held, or with its holding
      and that holding's mark-to-market figures. */
  datatype FundWithHolding =
    | FundOnly(fund: Fund)
    | FundHeld(fund: Fund, holding: PortfolioHolding, currentValue: real, gainLoss: real, gainLossPercent: real)

  datatype PortfolioSummary = PortfolioSummary(
    totalValue: real,
    totalInvested: real,
    totalGainLoss: real,
    totalGainLossPercent: real,
    dailyChange: real,
    dailyChangePercent: real,
    holdingsCount: nat)

  /** The stored fund for a submitted one: `{...insertFund, id, createdAt}`. */
  function FundFrom(ins: InsertFund, id: int, createdAt: nat): Fund
  {
    Fund(id, ins.name, ins.manager, ins.nav, ins.yearReturn, ins.riskLevel, ins.minInvestment,
         ins.expenseRatio, ins.objective, ins.region, ins.aum, ins.currency, createdAt)
  }

  /** The stored holding for an upsert: `{...insertHolding, id, updatedAt}`. */
  function HoldingFrom(ins: InsertPortfolioHolding, id: int, updatedAt: nat): PortfolioHolding
  {
    PortfolioHolding(id, ins.fundId, ins.totalShares, ins.totalInvested, ins.averageCost, updatedAt)
  }

  function SharesOf(t: Transaction): real { t.shares }

  function AmountOf(t: Transaction): real { t.amount }

  /** The status every stored transaction carries. */
  const Completed: string := "completed"
}
