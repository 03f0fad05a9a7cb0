/** The two-tier French corporate tax (impôt sur les sociétés) as the simulators
    state it: 15% of the profit up to 42 500, 25% of the part above. */
module CorporateTax {

  const ReducedRateCeiling: real := 42500.0

  /** The two-tier formula on its own, with no guard for a loss: a negative
      profit yields a negative amount. */
  function TwoTier(profit: real): (tax: real)
    ensures profit >= 0.0 ==> 0.15 * profit <= tax <= 0.25 * profit
    ensures tax >= 0.0 <==> profit >= 0.0
    ensures profit > ReducedRateCeiling ==> tax > 6375.0
  {
    if profit <= ReducedRateCeiling then profit * 0.15
    else ReducedRateCeiling * 0.15 + (profit - ReducedRateCeiling) * 0.25
  }

  /** The marginal rate is 15% below the ceiling and 25% above it: a profit
      increase of h raises the tax by between 0.15·h and 0.25·h, so the tax is
      continuous at the ceiling and never decreases. */
  lemma MarginalRate(profit: real, h: real)
    requires h >= 0.0
    ensures 0.15 * h <= TwoTier(profit + h) - TwoTier(profit) <= 0.25 * h
    ensures profit >= ReducedRateCeiling ==> TwoTier(profit + h) - TwoTier(profit) == 0.25 * h
    ensures profit + h <= ReducedRateCeiling ==> TwoTier(profit + h) - TwoTier(profit) == 0.15 * h
  {
  }

  /** A profit of 50 000 pays 42 500 × 15% + 7 500 × 25% = 8 250. */
  lemma FiftyThousand()
    ensures TwoTier(50000.0) == 8250.0
  {
  }
}

/** The fiscal regimes the forms offer. Each simulator matches the regime by its
    display name; a name that none of its branches lists is `Other`. */
module Regimes {

  datatype Regime =
    | LmnpReel
    | LmpReel
    | MicroBic
    | MicroFoncier
    | LocationNueReel
    | SciIs
    | SciIr
    | SarlDeFamille
    | HoldingIs
    | Other
}
