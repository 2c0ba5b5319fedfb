/** The arithmetic of the bet controller (backend/src/controllers/betController.js): the
    risk gates and the document `createBet` builds, the settlement transition of
    `updateBetResult`, and the analysis `getBet` adds to a settled bet. What the
    controller reads from the database (the number of open bets, the results of today's
    bets) is passed in. */
module BetFlow {
  import opened Wrappers
  import opened RealMath
  import Js
  import Kelly
  import opened UserRecord
  import opened BetRecord

  // ---------------------------------------------------------------- createBet: risk gates

  /** Why `createBet` answers 400: one of the three gates, or the bet schema refusing the
      document `Bet.create` would save. */
  datatype Rejection = TooManyOpenBets | StopLossExceeded | StopWinReached | SchemaRejected

  /** The amount lost by today's bets: the size of every negative result, added up in
      order. */
  function DailyLoss(results: seq<real>): (r: real)
    ensures r >= 0.0
  {
    if |results| == 0 then 0.0
    else
      var last := results[|results| - 1];
      DailyLoss(results[..|results| - 1]) + (if last < 0.0 then Abs(last) else 0.0)
  }

  /** The amount won by today's bets: every positive result, added up in order. */
  function DailyWin(results: seq<real>): (r: real)
    ensures r >= 0.0
  {
    if |results| == 0 then 0.0
    else
      var last := results[|results| - 1];
      DailyWin(results[..|results| - 1]) + (if last > 0.0 then last else 0.0)
  }

  /** What was won minus what was lost is the net result of the day. */
  lemma {:induction false} DailyNet(results: seq<real>)
    ensures DailyWin(results) - DailyLoss(results) == Sum(results)
  {
    if |results| > 0 {
      DailyNet(results[..|results| - 1]);
    }
  }

  /** The checks `createBet` makes before it creates anything: the open-bet limit first,
      then the daily stop loss (today's losses plus the new stake against a share of the
      bankroll), then the daily stop win. None lets the bet through. */
  function RiskGate(openBets: nat, settings: RiskSettings, bankroll: real, stake: real, todayResults: seq<real>)
    : (r: Option<Rejection>)
    ensures r == Some(TooManyOpenBets) <==> openBets as real >= settings.maxOpenBets
    ensures r == Some(StopLossExceeded) <==>
              openBets as real < settings.maxOpenBets
              && DailyLoss(todayResults) + stake > bankroll * settings.stopLossPercentage
    ensures r == Some(StopWinReached) <==>
              openBets as real < settings.maxOpenBets
              && DailyLoss(todayResults) + stake <= bankroll * settings.stopLossPercentage
              && DailyWin(todayResults) > bankroll * settings.stopWinPercentage
    ensures r.None? ==> stake <= bankroll * settings.stopLossPercentage - DailyLoss(todayResults)
  {
    if openBets as real >= settings.maxOpenBets then Some(TooManyOpenBets)
    else if DailyLoss(todayResults) + stake > bankroll * settings.stopLossPercentage then Some(StopLossExceeded)
    else if DailyWin(todayResults) > bankroll * settings.stopWinPercentage then Some(StopWinReached)
    else None
  }

  /** A stake that passes the gates still passes when lowered: only the stop-loss gate
      reads the stake, and it grows with it. */
  lemma SmallerStakePasses(openBets: nat, settings: RiskSettings, bankroll: real, stake: real, smaller: real,
                           todayResults: seq<real>)
    requires smaller <= stake
    requires RiskGate(openBets, settings, bankroll, stake, todayResults).None?
    ensures RiskGate(openBets, settings, bankroll, smaller, todayResults).None?
  {
  }

  // ---------------------------------------------------------------- createBet: the document

  /** Odds Kelly can work with are a number, or coerce to one. */
  lemma KellyOddsAreNumeric(odds: Js.Value)
    requires Kelly.KellyDefined(odds)
    ensures Js.ToNum(odds).Some?
  {
  }

  /** The bet `createBet` stores once the gates pass: the Kelly calculation with the user's
      fraction multiplier and cap, the risk metrics of the stake, and a new pending bet
      holding both. Saving a new document runs the pre-save rule with the stake and odds
      counted as changed, so the potential profit it stores reads the odds as American
      odds. */
  function NewBet(u: User, betType: BetType, odds: Js.Value, userProbability: real, stake: real,
                  confidenceLevel: real): (b: Bet)
    requires Kelly.KellyDefined(odds)
    ensures var kelly := Kelly.CalculateKellyBet(userProbability, odds, u.riskSettings.defaultFractionMultiplier,
                                                 u.riskSettings.maxBetPercentage);
            && b.impliedProbability == kelly.impliedProbability && b.edge == kelly.edge
            && b.kellyFraction == kelly.kellyFraction
            && b.riskLevel == Some(kelly.analysis.riskLevel)
            && b.recommendation == Some(kelly.analysis.recommendation)
    ensures b.status == Pending && b.result == 0.0 && b.betType == betType
    ensures b.stake == stake && b.userProbability == userProbability && b.confidenceLevel == confidenceLevel
    ensures b.odds == Js.ToNum(odds).value
    ensures b.fractionMultiplier == u.riskSettings.defaultFractionMultiplier
    ensures b.potentialProfit.Some? <==> b.odds != 0.0
    ensures b.odds != 0.0 ==> b.potentialProfit.value == AmericanProfit(stake, b.odds)
  {
    KellyOddsAreNumeric(odds);
    var settings := u.riskSettings;
    var kelly := Kelly.CalculateKellyBet(userProbability, odds, settings.defaultFractionMultiplier,
                                         settings.maxBetPercentage);
    var metrics := Kelly.CalculateRiskMetrics(stake, odds, u.bankroll);
    var draft := Bet(
      betType, Js.ToNum(odds).value, userProbability, kelly.impliedProbability, kelly.edge,
      confidenceLevel, kelly.kellyFraction, settings.defaultFractionMultiplier, stake,
      Some(metrics.potentialProfit), metrics.bankrollRiskPercentage, Pending, 0.0,
      Some(kelly.analysis.riskLevel), Some(kelly.analysis.recommendation));
    SavePotentialProfit(draft, true, true)
  }

  /** `createBet`: a request stopped by a gate creates nothing and reports that gate. Any
      other builds the bet above, which `Bet.create` validates against the bet schema
      before saving: a bet outside its bounds (a negative stake, say) is refused, and
      every other is created. */
  function CreateBet(openBets: nat, u: User, todayResults: seq<real>, betType: BetType, odds: Js.Value,
                     userProbability: real, stake: real, confidenceLevel: real): (r: Result<Bet, Rejection>)
    requires Kelly.KellyDefined(odds)
    ensures var gate := RiskGate(openBets, u.riskSettings, u.bankroll, stake, todayResults);
            gate.Some? ==> r == Err(gate.value)
    ensures var gate := RiskGate(openBets, u.riskSettings, u.bankroll, stake, todayResults);
            r == Err(SchemaRejected) <==>
              gate.None? && !WithinSchema(NewBet(u, betType, odds, userProbability, stake, confidenceLevel))
    ensures r.Ok? ==> r.value == NewBet(u, betType, odds, userProbability, stake, confidenceLevel)
                      && WithinSchema(r.value)
  {
    var gate := RiskGate(openBets, u.riskSettings, u.bankroll, stake, todayResults);
    if gate.Some? then Err(gate.value)
    else
      var b := NewBet(u, betType, odds, userProbability, stake, confidenceLevel);
      if WithinSchema(b) then Ok(b) else Err(SchemaRejected)
  }

  /** A negative stake clears the gates whenever today's losses leave room, but the schema's
      minimum of 0 refuses it, so no bet is created. */
  lemma NegativeStakeRejected(openBets: nat, u: User, todayResults: seq<real>, betType: BetType, odds: Js.Value,
                              userProbability: real, stake: real, confidenceLevel: real)
    requires Kelly.KellyDefined(odds) && stake < 0.0
    requires RiskGate(openBets, u.riskSettings, u.bankroll, stake, todayResults).None?
    ensures CreateBet(openBets, u, todayResults, betType, odds, userProbability, stake, confidenceLevel)
            == Err(SchemaRejected)
  {
    assert NewBet(u, betType, odds, userProbability, stake, confidenceLevel).stake == stake;
  }

  /** A request that clears the gates and stays inside the validators' and the user
      schema's bounds, with decimal odds above 1, is created. */
  lemma ValidRequestCreated(openBets: nat, u: User, todayResults: seq<real>, betType: BetType, odds: Js.Value,
                            userProbability: real, stake: real, confidenceLevel: real)
    requires Kelly.KellyDefined(odds) && Kelly.DecimalOddsOf(odds).value > 1.0
    requires 0.0 <= userProbability <= 1.0 && 1.0 <= confidenceLevel <= 10.0 && stake >= 0.0
    requires 0.0 <= u.riskSettings.defaultFractionMultiplier <= 1.0
    requires RiskGate(openBets, u.riskSettings, u.bankroll, stake, todayResults).None?
    ensures CreateBet(openBets, u, todayResults, betType, odds, userProbability, stake, confidenceLevel).Ok?
  {
    NewBetWithinSchema(u, betType, odds, userProbability, stake, confidenceLevel);
  }

  /** A request within the validators' and the user schema's bounds, with decimal odds above
      1, produces a bet within the bet schema's bounds. */
  lemma NewBetWithinSchema(u: User, betType: BetType, odds: Js.Value, userProbability: real, stake: real,
                           confidenceLevel: real)
    requires Kelly.KellyDefined(odds) && Kelly.DecimalOddsOf(odds).value > 1.0
    requires 0.0 <= userProbability <= 1.0 && 1.0 <= confidenceLevel <= 10.0 && stake >= 0.0
    requires 0.0 <= u.riskSettings.defaultFractionMultiplier <= 1.0
    ensures WithinSchema(NewBet(u, betType, odds, userProbability, stake, confidenceLevel))
  {
    var b := NewBet(u, betType, odds, userProbability, stake, confidenceLevel);
    var kelly := Kelly.CalculateKellyBet(userProbability, odds, u.riskSettings.defaultFractionMultiplier,
                                         u.riskSettings.maxBetPercentage);
    assert b.impliedProbability == Kelly.ImpliedProbability(Kelly.DecimalOddsOf(odds).value);
    assert b.userProbability == userProbability && b.confidenceLevel == confidenceLevel;
    assert b.fractionMultiplier == u.riskSettings.defaultFractionMultiplier && b.stake == stake;
  }

  /** The stored potential profit and the one the controller computed disagree for decimal
      odds: a stake of 100 at decimal odds 2.5 should profit 150, but the pre-save rule reads
      2.5 as American odds and stores 2.5. */
  lemma DecimalOddsProfitOverwritten(u: User, betType: BetType)
    ensures Kelly.CalculateRiskMetrics(100.0, Js.Num(2.5), u.bankroll).potentialProfit == 150.0
    ensures NewBet(u, betType, Js.Num(2.5), 0.5, 100.0, 5.0).potentialProfit == Some(2.5)
  {
  }

  // ---------------------------------------------------------------- updateBetResult

  /** Whether the user's counters satisfy `totalBets = wonBets + lostBets + pushBets`. */
  predicate TotalsAgree(p: Performance)
  {
    p.totalBets == p.wonBets + p.lostBets + p.pushBets
  }

  /** 1 when the status is `s`, else 0. */
  function Indicator(status: Status, s: Status): (n: nat)
    ensures n <= 1
  {
    if status == s then 1 else 0
  }

  /** The user side of `updateBetResult`: the result is added to the bankroll and the total
      profit, the counter of the new status goes up by one (none for pending or
      cancelled), the total is recomputed from the three counters and the derived
      statistics are refreshed. The streaks are not touched. */
  function SettleUser(u: User, status: Status, result: real): (v: User)
    ensures v.bankroll == u.bankroll + result
    ensures v.performance.totalProfit == u.performance.totalProfit + result
    ensures v.performance.wonBets == u.performance.wonBets + Indicator(status, Won)
    ensures v.performance.lostBets == u.performance.lostBets + Indicator(status, Lost)
    ensures v.performance.pushBets == u.performance.pushBets + Indicator(status, Push)
    ensures TotalsAgree(v.performance)
    ensures status == Pending || status == Cancelled ==> v.performance.totalBets == u.performance.wonBets + u.performance.lostBets + u.performance.pushBets
    ensures v.performance.currentStreak == u.performance.currentStreak
    ensures v.performance.bestStreak == u.performance.bestStreak
    ensures v.performance.worstStreak == u.performance.worstStreak
    ensures v.performance.consecutiveLosses == u.performance.consecutiveLosses
    ensures v == u.(bankroll := v.bankroll, performance := v.performance)
  {
    var p := u.performance;
    var won := if status == Won then p.wonBets + 1 else p.wonBets;
    var lost := if status == Lost then p.lostBets + 1 else p.lostBets;
    var push := if status == Push then p.pushBets + 1 else p.pushBets;
    var counted := p.(wonBets := won, lostBets := lost, pushBets := push,
                      totalBets := won + lost + push, totalProfit := p.totalProfit + result);
    u.(bankroll := u.bankroll + result,
       performance := UpdatePerformanceStats(counted, u.initialBankroll))
  }

  /** Why `updateBetResult` answers 400 after the validator let the request through: the
      user document refuses to save a number field holding NaN, and
      - the request had no result, so the bankroll became `bankroll + undefined`, or
      - the recomputed ROI `totalProfit / initialBankroll * 100` is NaN: there is no
        initial bankroll, or it is 0 and so is the total profit (0/0). A non-zero profit
        over 0 gives an infinity, which saves. */
  datatype SettleFailure = BankrollNotANumber | RoiNotANumber

  /** The number of won, lost and pushed bets after settling one bet with `status`. */
  function SettledCount(u: User, status: Status): nat
  {
    u.performance.wonBets + u.performance.lostBets + u.performance.pushBets
    + Indicator(status, Won) + Indicator(status, Lost) + Indicator(status, Push)
  }

  /** Settling with `status` and `result` leaves a NaN ROI: the ROI is recomputed (some bet
      is won, lost or pushed) and the initial bankroll is missing, or 0 with a total
      profit of 0. */
  predicate SettledRoiNaN(u: User, status: Status, result: real)
  {
    SettledCount(u, status) > 0
    && (u.initialBankroll.None?
        || (u.initialBankroll.value == 0.0 && u.performance.totalProfit + result == 0.0))
  }

  /** `updateBetResult`: the bet takes the new status and result, whatever its previous
      status was, and the user is settled as above. The save fails, and the bet, saved
      only after the user, is not saved either, when the result is absent (the validator
      lets that through) or the recomputed ROI is NaN. A save that succeeds runs the
      pre-save rule: when the bankroll changed (a non-zero result) and no initial
      bankroll is set, the new bankroll becomes the initial one. */
  function SettleBet(u: User, b: Bet, status: Status, result: Option<real>): (r: Result<(User, Bet), SettleFailure>)
    ensures result.None? ==> r == Err(BankrollNotANumber)
    ensures r == Err(RoiNotANumber) <==> result.Some? && SettledRoiNaN(u, status, result.value)
    ensures r.Ok? <==> result.Some? && !SettledRoiNaN(u, status, result.value)
    ensures r.Ok? ==> r.value.1 == b.(status := status, result := result.value)
    ensures r.Ok? ==> r.value.0 == SettleUser(u, status, result.value).(initialBankroll := r.value.0.initialBankroll)
    ensures r.Ok? ==> r.value.0.initialBankroll
                      == if InitialBankrollSet(u) || result.value == 0.0 then u.initialBankroll
                         else Some(u.bankroll + result.value)
    ensures r.Ok? && r.value.0.performance.wonBets + r.value.0.performance.lostBets + r.value.0.performance.pushBets > 0
            ==> r.value.0.performance.roi.Some? || (u.initialBankroll == Some(0.0) && r.value.0.performance.totalProfit != 0.0)
  {
    match result
    case None => Err(BankrollNotANumber)
    case Some(x) =>
      var v := SettleUser(u, status, x);
      var p := v.performance;
      if p.wonBets + p.lostBets + p.pushBets > 0
         && (v.initialBankroll.None? || (v.initialBankroll.value == 0.0 && p.totalProfit == 0.0))
      then Err(RoiNotANumber)
      else Ok((SaveInitialBankroll(v, x != 0.0), b.(status := status, result := x)))
  }

  datatype Settlement = Settlement(status: Status, result: real)

  /** Settlements applied to a user in order. */
  function SettleAll(u: User, ss: seq<Settlement>): User
  {
    if |ss| == 0 then u
    else
      var last := ss[|ss| - 1];
      SettleUser(SettleAll(u, ss[..|ss| - 1]), last.status, last.result)
  }

  /** How many settlements have status `s`. */
  function CountStatus(ss: seq<Settlement>, s: Status): (n: nat)
    ensures n <= |ss|
  {
    if |ss| == 0 then 0
    else CountStatus(ss[..|ss| - 1], s) + Indicator(ss[|ss| - 1].status, s)
  }

  /** The results of the settlements, in order. */
  function Results(ss: seq<Settlement>): (rs: seq<real>)
    ensures |rs| == |ss| && forall i :: 0 <= i < |ss| ==> rs[i] == ss[i].result
  {
    seq(|ss|, i requires 0 <= i < |ss| => ss[i].result)
  }

  /** After any sequence of settlements, each counter has grown by the number of
      settlements with its status, the bankroll and the total profit by the sum of the
      results, and the streaks are where they were. */
  lemma {:induction false} SettlementHistory(u: User, ss: seq<Settlement>)
    ensures var v := SettleAll(u, ss);
            && v.performance.wonBets == u.performance.wonBets + CountStatus(ss, Won)
            && v.performance.lostBets == u.performance.lostBets + CountStatus(ss, Lost)
            && v.performance.pushBets == u.performance.pushBets + CountStatus(ss, Push)
            && v.bankroll == u.bankroll + Sum(Results(ss))
            && v.performance.totalProfit == u.performance.totalProfit + Sum(Results(ss))
            && v.performance.currentStreak == u.performance.currentStreak
            && (|ss| > 0 ==> TotalsAgree(v.performance))
  {
    if |ss| > 0 {
      var init := ss[..|ss| - 1];
      SettlementHistory(u, init);
      assert Results(ss)[..|ss| - 1] == Results(init);
    }
  }

  /** Every settlement carries exactly one of the five statuses. */
  lemma {:induction false} StatusCountsPartition(ss: seq<Settlement>)
    ensures CountStatus(ss, Pending) + CountStatus(ss, Won) + CountStatus(ss, Lost)
            + CountStatus(ss, Cancelled) + CountStatus(ss, Push) == |ss|
  {
    if |ss| > 0 {
      StatusCountsPartition(ss[..|ss| - 1]);
    }
  }

  /** The controller does not look at the bet's previous status: for a user with an
      initial bankroll, settling a bet as won twice counts two wins. A user without one
      cannot settle a win at all, since the ROI is NaN. */
  lemma SettlingTwiceCountsTwice(u: User, b: Bet, result: real)
    ensures InitialBankrollSet(u) ==>
              var first := SettleBet(u, b, Won, Some(result));
              first.Ok? && SettleBet(first.value.0, first.value.1, Won, Some(result)).Ok?
              && SettleBet(first.value.0, first.value.1, Won, Some(result)).value.0.performance.wonBets
                 == u.performance.wonBets + 2
    ensures u.initialBankroll.None? ==> SettleBet(u, b, Won, Some(result)) == Err(RoiNotANumber)
  {
  }

  // ---------------------------------------------------------------- getBet

  datatype SettledAnalysis = SettledAnalysis(
    roi: Option<Option<real>>,
    actualToExpectedReturn: Option<real>,
    edgeEffectiveness: real)

  /** The fields `getBet` adds for a bet that is no longer pending: the ROI, the result as
      a share of the potential profit (None when that division is not finite), and the
      edge signed by the outcome. */
  function AnalyseBet(b: Bet): (r: Option<SettledAnalysis>)
    ensures r.Some? <==> b.status != Pending
    ensures r.Some? ==> r.value.roi == CalculateRoi(b)
    ensures r.Some? ==> (r.value.actualToExpectedReturn.Some? <==>
                          b.potentialProfit.Some? && b.potentialProfit.value != 0.0)
    ensures r.Some? && r.value.actualToExpectedReturn.Some? ==>
              r.value.actualToExpectedReturn.value * b.potentialProfit.value == b.result
    ensures r.Some? ==> Abs(r.value.edgeEffectiveness) == Abs(b.edge)
    ensures r.Some? ==> (r.value.edgeEffectiveness > 0.0 <==>
                          (b.edge > 0.0 && b.result > 0.0) || (b.edge < 0.0 && b.result <= 0.0))
  {
    if b.status == Pending then None
    else
      var ratio :=
        if b.potentialProfit.Some? && b.potentialProfit.value != 0.0
        then Some(b.result / b.potentialProfit.value) else None;
      Some(SettledAnalysis(CalculateRoi(b), ratio, if b.result > 0.0 then b.edge else -b.edge))
  }
}
