/** The investment form's buy, from the dollar amount typed in to the
    first holding the store opens for it. The form converts the dollars to
    euros to work out the shares, but sends the dollar figure as the
    amount paid. */
module BuyFlow {
  import opened Wrappers
  import opened Schema
  import opened Ledger
  import opened Utils

  /** The request the form sends, as written: shares bought with the euro
      value of `amountUsd`, but `amountUsd` itself as the amount. */
  function SubmittedAsWritten(fund: Fund, amountUsd: real): (t: InsertTransaction)
    requires fund.nav != 0.0
    ensures t.fundId == fund.id && t.navAtPurchase == fund.nav
    ensures t.shares * fund.nav == ConvertUsdToEur(t.amount)
  {
    var eurAmount := ConvertUsdToEur(amountUsd);
    InsertTransaction(fund.id, amountUsd, CalculateShares(eurAmount, fund.nav), fund.nav)
  }

  /** The request with the amount in the currency the shares were priced
      in: the euro amount pays for exactly the shares bought. */
  function Submitted(fund: Fund, amountUsd: real): (t: InsertTransaction)
    requires fund.nav != 0.0
    ensures t.fundId == fund.id && t.navAtPurchase == fund.nav
    ensures t.shares * fund.nav == t.amount
    ensures t.amount == ConvertUsdToEur(amountUsd)
  {
    var eurAmount := ConvertUsdToEur(amountUsd);
    InsertTransaction(fund.id, eurAmount, CalculateShares(eurAmount, fund.nav), fund.nav)
  }

  /** The holding the store opens, under `holdingId`, for a first buy
      logged as transaction `id`, and how the portfolio page then shows it
      next to its fund. */
  function FirstPosition(fund: Fund, ins: InsertTransaction, id: int, holdingId: int, now: nat): (r: FundWithHolding)
    requires ins.shares != 0.0 && ins.amount != 0.0 && ins.fundId == fund.id
    ensures r.FundHeld? && r.holding.fundId == fund.id
    ensures r.holding.averageCost == ins.amount / ins.shares
    ensures r.gainLoss == ins.shares * fund.nav - ins.amount
  {
    var t := Transaction(id, ins.fundId, ins.amount, ins.shares, ins.navAtPurchase, Completed, now);
    var holding := HoldingFrom(OpenWith(t), holdingId, now);
    assert HoldingFor([holding], fund.id) == Some(holding);
    JoinHolding(fund, [holding])
  }

  /** As written, the first buy is booked at NAV / 0.85 a share and shows
      a loss of 15% of the dollars paid the moment it is made. */
  lemma AsWrittenBooksALoss(fund: Fund, amountUsd: real, id: int, holdingId: int, now: nat)
    requires fund.nav > 0.0 && amountUsd > 0.0
    ensures var p := FirstPosition(fund, SubmittedAsWritten(fund, amountUsd), id, holdingId, now);
      && p.holding.averageCost == fund.nav / EurPerUsd
      && p.holding.averageCost > fund.nav
      && p.gainLoss == -0.15 * amountUsd
      && p.gainLoss < 0.0
  {
    var t := SubmittedAsWritten(fund, amountUsd);
    assert t.shares > 0.0 by {
      SharesMonotone(ConvertUsdToEur(amountUsd), ConvertUsdToEur(amountUsd), fund.nav);
    }
    assert t.amount / t.shares == fund.nav / EurPerUsd by {
      assert t.shares * fund.nav == amountUsd * EurPerUsd;
      assert t.shares == amountUsd * EurPerUsd / fund.nav;
    }
  }

  /** A fund priced at 100 and a purchase of 1000 dollars: 8.5 shares are
      booked for 1000, at about 117.65 a share, and the position shows a
      loss of 150 at once. */
  lemma AsWrittenExample()
    ensures var fund := Fund(1, "European Growth Fund", "", 100.0, 0.0, "Medium", 1000, 0.75, None, None, None, None, 0);
      var t := SubmittedAsWritten(fund, 1000.0);
      && t.amount == 1000.0 && t.shares == 8.5
      && FirstPosition(fund, t, 1, 1, 0).gainLoss == -150.0
  {
    var fund := Fund(1, "European Growth Fund", "", 100.0, 0.0, "Medium", 1000, 0.75, None, None, None, None, 0);
    var t := SubmittedAsWritten(fund, 1000.0);
    assert t.shares * 100.0 == 850.0;
  }

  /** With the euro amount sent, the first buy is booked at the fund's NAV
      and shows neither gain nor loss. */
  lemma CorrectedBooksAtNav(fund: Fund, amountUsd: real, id: int, holdingId: int, now: nat)
    requires fund.nav > 0.0 && amountUsd > 0.0
    ensures var p := FirstPosition(fund, Submitted(fund, amountUsd), id, holdingId, now);
      && p.holding.averageCost == fund.nav
      && p.gainLoss == 0.0
  {
    var t := Submitted(fund, amountUsd);
    SharesMonotone(t.amount, t.amount, fund.nav);
    assert t.shares > 0.0;
  }
}
