/** The user document's arithmetic: streak tracking, the derived win rate and ROI, the
    bankroll history log and the rule that fixes the initial bankroll
    (backend/src/models/userModel.js). Bet counters and streaks only ever start at 0
    and move by 1, so they are whole numbers here. */
module UserRecord {
  import opened Wrappers
  import opened RealMath

  /** `riskSettings`, with the schema's defaults in `DefaultRiskSettings`. */
  datatype RiskSettings = RiskSettings(
    defaultFractionMultiplier: real,
    maxBetPercentage: real,
    stopLossPercentage: real,
    stopWinPercentage: real,
    maxOpenBets: real,
    maxConsecutiveLosses: real,
    unitSizingEnabled: bool,
    baseUnitSize: real)

  const DefaultRiskSettings := RiskSettings(0.5, 0.1, 0.2, 0.5, 5.0, 3.0, false, 100.0)

  /** `performance`. A streak is positive for a run of wins and negative for a run of
      losses; `roi` is None when the division producing it was not finite. */
  datatype Performance = Performance(
    totalBets: nat,
    wonBets: nat,
    lostBets: nat,
    pushBets: nat,
    totalProfit: real,
    roi: Option<real>,
    winRate: real,
    currentStreak: int,
    bestStreak: int,
    worstStreak: int,
    consecutiveLosses: int)

  /** Every counter at its schema default of 0. */
  const NewPerformance := Performance(0, 0, 0, 0, 0.0, Some(0.0), 0.0, 0, 0, 0, 0)

  /** The `reason` enum of a bankroll history entry. */
  datatype Reason = Deposit | Withdrawal | BetResult | Adjustment

  datatype HistoryEntry = HistoryEntry(amount: real, change: real, reason: Reason, betId: Option<string>)

  /** The user fields the betting core reads and writes; `initialBankroll` has no default
      and is None until set. */
  datatype User = User(
    bankroll: real,
    initialBankroll: Option<real>,
    bankrollHistory: seq<HistoryEntry>,
    riskSettings: RiskSettings,
    performance: Performance)

  // ---------------------------------------------------------------- streaks

  /** The loss counter mirrors the length of the current losing run. */
  predicate LossRunTracked(p: Performance)
  {
    p.consecutiveLosses == if p.currentStreak < 0 then -p.currentStreak else 0
  }

  /** `updateStreak(isWin)`: a win extends a winning run or starts one at 1 and clears the
      loss counter; a loss extends a losing run or starts one at -1 and bumps the loss
      counter; the best and worst streaks follow the current one. */
  function UpdateStreak(p: Performance, isWin: bool): (r: Performance)
    ensures isWin ==> r.currentStreak >= 1 && r.consecutiveLosses == 0
    ensures isWin && p.currentStreak >= 0 ==> r.currentStreak == p.currentStreak + 1
    ensures isWin && p.currentStreak < 0 ==> r.currentStreak == 1
    ensures !isWin ==> r.currentStreak <= -1 && r.consecutiveLosses == p.consecutiveLosses + 1
    ensures !isWin && p.currentStreak <= 0 ==> r.currentStreak == p.currentStreak - 1
    ensures !isWin && p.currentStreak > 0 ==> r.currentStreak == -1
    ensures r.worstStreak <= r.currentStreak <= r.bestStreak
    ensures p.bestStreak <= r.bestStreak && r.worstStreak <= p.worstStreak
    ensures r.bestStreak == p.bestStreak || r.bestStreak == r.currentStreak
    ensures r.worstStreak == p.worstStreak || r.worstStreak == r.currentStreak
    ensures LossRunTracked(p) ==> LossRunTracked(r)
    ensures r == p.(currentStreak := r.currentStreak, bestStreak := r.bestStreak,
                    worstStreak := r.worstStreak, consecutiveLosses := r.consecutiveLosses)
  {
    var streak :=
      if isWin then (if p.currentStreak < 0 then 1 else p.currentStreak + 1)
      else (if p.currentStreak > 0 then -1 else p.currentStreak - 1);
    var losses := if isWin then 0 else p.consecutiveLosses + 1;
    p.(currentStreak := streak,
       consecutiveLosses := losses,
       bestStreak := if streak > p.bestStreak then streak else p.bestStreak,
       worstStreak := if streak < p.worstStreak then streak else p.worstStreak)
  }

  /** `updateStreak` applied once per outcome, oldest first. */
  function ApplyOutcomes(p: Performance, outcomes: seq<bool>): Performance
  {
    if |outcomes| == 0 then p
    else UpdateStreak(ApplyOutcomes(p, outcomes[..|outcomes| - 1]), outcomes[|outcomes| - 1])
  }

  /** How many of the latest outcomes in a row equal `b`. */
  function RunLength(outcomes: seq<bool>, b: bool): (n: nat)
    ensures n <= |outcomes|
  {
    if |outcomes| == 0 || outcomes[|outcomes| - 1] != b then 0
    else RunLength(outcomes[..|outcomes| - 1], b) + 1
  }

  /** The streak a history of outcomes ends on: the length of the final run of wins, or
      minus the length of the final run of losses. */
  function StreakOf(outcomes: seq<bool>): int
  {
    if |outcomes| == 0 then 0
    else if outcomes[|outcomes| - 1] then RunLength(outcomes, true)
    else -(RunLength(outcomes, false) as int)
  }

  /** Starting from a fresh record, the current streak is the signed length of the final
      run and the loss counter is the length of the final run of losses. */
  lemma {:induction false} StreakIsFinalRun(outcomes: seq<bool>)
    ensures ApplyOutcomes(NewPerformance, outcomes).currentStreak == StreakOf(outcomes)
    ensures ApplyOutcomes(NewPerformance, outcomes).consecutiveLosses == RunLength(outcomes, false)
  {
    if |outcomes| > 0 {
      var init := outcomes[..|outcomes| - 1];
      var b := outcomes[|outcomes| - 1];
      StreakIsFinalRun(init);
      if |init| > 0 {
        assert init[..|init| - 1] == outcomes[..|outcomes| - 1][..|init| - 1];
        if init[|init| - 1] {
          assert RunLength(init, false) == 0;
        } else {
          assert RunLength(init, true) == 0;
        }
      }
      if b {
        assert RunLength(outcomes, false) == 0;
      } else {
        assert RunLength(outcomes, false) == RunLength(init, false) + 1;
      }
    }
  }

  /** The best streak is at least the streak after every prefix of the history, and the
      worst streak at most. */
  lemma {:induction false} BestStreakIsRecord(outcomes: seq<bool>, k: nat)
    requires k <= |outcomes|
    ensures StreakOf(outcomes[..k]) <= ApplyOutcomes(NewPerformance, outcomes).bestStreak
    ensures ApplyOutcomes(NewPerformance, outcomes).worstStreak <= StreakOf(outcomes[..k])
  {
    var n := |outcomes|;
    StreakIsFinalRun(outcomes[..k]);
    if k < n {
      var init := outcomes[..n - 1];
      assert outcomes[..k] == init[..k];
      BestStreakIsRecord(init, k);
    } else {
      assert outcomes[..k] == outcomes;
    }
  }

  /** The best streak is not just an upper bound: it is the streak after some prefix of the
      history (the empty prefix giving the initial 0), and likewise the worst streak. */
  lemma {:induction false} RecordsAreReached(outcomes: seq<bool>)
    ensures exists k :: 0 <= k <= |outcomes| &&
              ApplyOutcomes(NewPerformance, outcomes).bestStreak == StreakOf(outcomes[..k])
    ensures exists k :: 0 <= k <= |outcomes| &&
              ApplyOutcomes(NewPerformance, outcomes).worstStreak == StreakOf(outcomes[..k])
  {
    var n := |outcomes|;
    if n == 0 {
      assert outcomes[..0] == [];
    } else {
      var init := outcomes[..n - 1];
      var before := ApplyOutcomes(NewPerformance, init);
      var after := ApplyOutcomes(NewPerformance, outcomes);
      RecordsAreReached(init);
      StreakIsFinalRun(outcomes);
      assert outcomes[..n] == outcomes;
      if after.bestStreak == before.bestStreak {
        var k :| 0 <= k <= |init| && before.bestStreak == StreakOf(init[..k]);
        assert init[..k] == outcomes[..k];
      } else {
        assert after.bestStreak == StreakOf(outcomes[..n]);
      }
      if after.worstStreak == before.worstStreak {
        var k :| 0 <= k <= |init| && before.worstStreak == StreakOf(init[..k]);
        assert init[..k] == outcomes[..k];
      } else {
        assert after.worstStreak == StreakOf(outcomes[..n]);
      }
    }
  }

  /** From a fresh record the tracked loss counter always agrees with the streak. */
  lemma {:induction false} LossRunAlwaysTracked(outcomes: seq<bool>)
    ensures LossRunTracked(ApplyOutcomes(NewPerformance, outcomes))
  {
    if |outcomes| > 0 {
      LossRunAlwaysTracked(outcomes[..|outcomes| - 1]);
    }
  }

  // ---------------------------------------------------------------- derived statistics

  /** `updatePerformanceStats(initialBankroll)`: with at least one won, lost or pushed bet
      the win rate becomes the percentage of such bets that were won and the ROI the total
      profit as a percentage of the initial bankroll (not finite when that is missing or
      0); with none nothing changes. */
  function UpdatePerformanceStats(p: Performance, initialBankroll: Option<real>): (r: Performance)
    ensures p.wonBets + p.lostBets + p.pushBets == 0 ==> r == p
    ensures r == p.(winRate := r.winRate, roi := r.roi)
    ensures p.wonBets + p.lostBets + p.pushBets > 0 ==>
              && r.winRate * (p.wonBets + p.lostBets + p.pushBets) as real == p.wonBets as real * 100.0
              && 0.0 <= r.winRate <= 100.0
              && (r.roi.Some? <==> initialBankroll.Some? && initialBankroll.value != 0.0)
              && (r.roi.Some? ==> r.roi.value * initialBankroll.value == p.totalProfit * 100.0)
  {
    var total := p.wonBets + p.lostBets + p.pushBets;
    if total > 0 then
      var t := total as real;
      var w := p.wonBets as real;
      QuotientInUnit(w, t);
      p.(winRate := w / t * 100.0,
         roi := if initialBankroll.Some? && initialBankroll.value != 0.0
                then Some(p.totalProfit / initialBankroll.value * 100.0) else None)
    else p
  }

  // ---------------------------------------------------------------- bankroll

  /** `addBankrollHistoryEntry(amount, change, reason, betId)`: the log grows by exactly the
      new entry, at its end, and nothing else about the user changes. */
  function AddBankrollHistoryEntry(u: User, amount: real, change: real, reason: Reason, betId: Option<string>)
    : (r: User)
    ensures |r.bankrollHistory| == |u.bankrollHistory| + 1
    ensures r.bankrollHistory[..|u.bankrollHistory|] == u.bankrollHistory
    ensures r.bankrollHistory[|u.bankrollHistory|] == HistoryEntry(amount, change, reason, betId)
    ensures r == u.(bankrollHistory := r.bankrollHistory)
  {
    var h := u.bankrollHistory + [HistoryEntry(amount, change, reason, betId)];
    assert h[..|u.bankrollHistory|] == u.bankrollHistory;
    u.(bankrollHistory := h)
  }

  /** An initial bankroll counts as set when it is present and non-zero (truthy). */
  predicate InitialBankrollSet(u: User)
  {
    u.initialBankroll.Some? && u.initialBankroll.value != 0.0
  }

  /** The pre-save rule: when the bankroll was modified and no initial bankroll is set yet,
      the current bankroll becomes the initial one. Once set, it never changes again, and
      it is never touched by a save that leaves the bankroll alone. */
  function SaveInitialBankroll(u: User, bankrollModified: bool): (r: User)
    ensures r == u.(initialBankroll := r.initialBankroll)
    ensures InitialBankrollSet(u) ==> r == u
    ensures !bankrollModified ==> r == u
    ensures bankrollModified && !InitialBankrollSet(u) ==> r.initialBankroll == Some(u.bankroll)
    ensures InitialBankrollSet(r) <==> InitialBankrollSet(u) || (bankrollModified && u.bankroll != 0.0)
  {
    if bankrollModified && !InitialBankrollSet(u) then u.(initialBankroll := Some(u.bankroll)) else u
  }
}
