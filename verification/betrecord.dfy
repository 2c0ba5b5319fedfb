/** The bet document: its schema bounds, the pre-save rule that recomputes the potential
    profit and the ROI method (backend/src/models/betModel.js). */
module BetRecord {
  import opened Wrappers
  import opened RealMath
  import Kelly

  datatype BetType = Moneyline | Spread | OverUnder | Prop
  datatype Status = Pending | Won | Lost | Cancelled | Push

  /** The stored fields the betting logic reads or writes. A number that is not finite is
      None; the two analysis fields are optional in the schema. */
  datatype Bet = Bet(
    betType: BetType,
    odds: real,
    userProbability: real,
    impliedProbability: real,
    edge: real,
    confidenceLevel: real,
    kellyFraction: real,
    fractionMultiplier: real,
    stake: real,
    potentialProfit: Option<real>,
    bankrollRiskPercentage: Option<real>,
    status: Status,
    result: real,
    riskLevel: Option<Kelly.RiskLevel>,
    recommendation: Option<Kelly.Recommendation>)

  /** The schema's `min`/`max` bounds. The enums (bet type, status, risk level and
      recommendation) are enforced by the datatypes themselves. */
  predicate WithinSchema(b: Bet)
  {
    && 0.0 <= b.userProbability <= 1.0
    && 0.0 <= b.impliedProbability <= 1.0
    && 1.0 <= b.confidenceLevel <= 10.0
    && 0.0 <= b.fractionMultiplier <= 1.0
    && 0.0 <= b.stake
  }

  /** The profit a winning stake collects at non-zero American odds: the stake times the
      decimal odds less one. */
  function AmericanProfit(stake: real, american: real): (r: real)
    requires american != 0.0
    ensures american > 0.0 ==> r == stake * american / 100.0
    ensures american < 0.0 ==> r * -american == stake * 100.0
  {
    stake * (Kelly.AmericanToDecimal(american).value - 1.0)
  }

  /** The pre-save rule. When the stake or the odds changed, the potential profit is
      recomputed reading the stored odds as American odds; otherwise the document is
      saved as it is. Odds of 0 give a division by zero, a non-finite profit. */
  function SavePotentialProfit(b: Bet, stakeModified: bool, oddsModified: bool): (r: Bet)
    ensures !stakeModified && !oddsModified ==> r == b
    ensures r == b.(potentialProfit := r.potentialProfit)
    ensures stakeModified || oddsModified ==> (r.potentialProfit.Some? <==> b.odds != 0.0)
    ensures (stakeModified || oddsModified) && b.odds != 0.0 ==>
              r.potentialProfit.value == AmericanProfit(b.stake, b.odds)
    ensures (stakeModified || oddsModified) && r.potentialProfit.Some? && b.stake >= 0.0 ==>
              r.potentialProfit.value >= 0.0
  {
    if stakeModified || oddsModified then
      var profit :=
        if b.odds > 0.0 then Some(b.stake * (b.odds / 100.0))
        else if b.odds == 0.0 then None
        else Some(b.stake * (100.0 / Abs(b.odds)));
      b.(potentialProfit := profit)
    else b
  }

  /** `calculateROI()`: None for `null` (an unsettled, cancelled or pushed bet); for a won
      or lost bet the result as a percentage of the stake, which is not finite (None)
      for a zero stake. */
  function CalculateRoi(b: Bet): (r: Option<Option<real>>)
    ensures r.Some? <==> b.status == Won || b.status == Lost
    ensures r.Some? ==> (r.value.Some? <==> b.stake != 0.0)
    ensures r.Some? && r.value.Some? ==> r.value.value * b.stake == b.result * 100.0
    ensures r.Some? && b.stake > 0.0 ==> (r.value.value > 0.0 <==> b.result > 0.0)
  {
    if b.status == Won || b.status == Lost then
      if b.stake != 0.0 then
        var roi := b.result / b.stake * 100.0;
        assert roi * b.stake == b.result * 100.0;
        PositiveQuotient(b.result, b.stake);
        Some(Some(roi))
      else Some(None)
    else None
  }
}
