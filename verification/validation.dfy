/** The request validators (backend/src/middleware/validationMiddleware.js). Each one runs
    a fixed list of checks in order, collects the message of every check that fails, and
    either passes the request on (`next()`) or answers 400 with the collected list.
    Errors are modelled by one constructor per message. */
module Validation {
  import opened Wrappers
  import Js
  import Kelly

  /** What a validator does with a request: pass it on, or reject it with its errors. */
  datatype Verdict<E> = Next | Reject(errors: seq<E>)

  /** The common ending of every validator: any error rejects, no error passes. */
  function Respond<E>(errors: seq<E>): (v: Verdict<E>)
    ensures v.Next? <==> |errors| == 0
    ensures v.Reject? ==> v.errors == errors
  {
    if |errors| > 0 then Reject(errors) else Next
  }

  // ---------------------------------------------------------------- validateBetCreation

  /** The body of a bet-creation request; every field may be missing or of any type. */
  datatype BetRequest = BetRequest(
    sport: Js.Value,
    event: Js.Value,
    eventDate: Js.Value,
    betType: Js.Value,
    odds: Js.Value,
    userProbability: Js.Value,
    stake: Js.Value,
    confidenceLevel: Js.Value,
    unitSize: Js.Value)

  /** The outcome of parsing `eventDate` and comparing it with the current time, which the
      caller supplies. */
  datatype DateCheck = Unparseable | InPast | Upcoming

  datatype BetError =
    | SportRequired | EventRequired | EventDateRequired | BetTypeRequired
    | OddsRequired | ProbabilityRequired | StakeRequired | ConfidenceRequired
    | ProbabilityOutOfRange | InvalidOddsValue | ConfidenceOutOfRange | UnitSizeOutOfRange
    | InvalidEventDate | EventDateInPast

  /** The position of each check in the validator. */
  function BetErrorRank(e: BetError): (i: nat)
    ensures i < BetCheckCount && BetCheckAt(i) == e
  {
    match e
    case SportRequired => 0
    case EventRequired => 1
    case EventDateRequired => 2
    case BetTypeRequired => 3
    case OddsRequired => 4
    case ProbabilityRequired => 5
    case StakeRequired => 6
    case ConfidenceRequired => 7
    case ProbabilityOutOfRange => 8
    case InvalidOddsValue => 9
    case ConfidenceOutOfRange => 10
    case UnitSizeOutOfRange => 11
    case InvalidEventDate => 12
    case EventDateInPast => 13
  }

  const BetCheckCount: nat := 14

  /** The check run in position `i`. */
  function BetCheckAt(i: nat): BetError
    requires i < BetCheckCount
  {
    if i == 0 then SportRequired
    else if i == 1 then EventRequired
    else if i == 2 then EventDateRequired
    else if i == 3 then BetTypeRequired
    else if i == 4 then OddsRequired
    else if i == 5 then ProbabilityRequired
    else if i == 6 then StakeRequired
    else if i == 7 then ConfidenceRequired
    else if i == 8 then ProbabilityOutOfRange
    else if i == 9 then InvalidOddsValue
    else if i == 10 then ConfidenceOutOfRange
    else if i == 11 then UnitSizeOutOfRange
    else if i == 12 then InvalidEventDate
    else EventDateInPast
  }

  /** When each check fails. The required-field checks test truthiness, so a 0 counts as
      missing; the range checks compare after `Number(...)` coercion, so a value that
      coerces to NaN passes them. Odds that are a number are read as decimal odds; any
      other value goes through `americanToDecimal`, whose result is never at most 1. */
  predicate BetCheckFails(req: BetRequest, date: DateCheck, e: BetError)
  {
    match e
    case SportRequired => !Js.Truthy(req.sport)
    case EventRequired => !Js.Truthy(req.event)
    case EventDateRequired => !Js.Truthy(req.eventDate)
    case BetTypeRequired => !Js.Truthy(req.betType)
    case OddsRequired => !Js.Truthy(req.odds)
    case ProbabilityRequired => !Js.Truthy(req.userProbability)
    case StakeRequired => !Js.Truthy(req.stake)
    case ConfidenceRequired => !Js.Truthy(req.confidenceLevel)
    case ProbabilityOutOfRange =>
      Js.LessThan(req.userProbability, 0.01) || Js.GreaterThan(req.userProbability, 0.99)
    case InvalidOddsValue =>
      var d := Kelly.DecimalOddsOf(req.odds);
      d.Some? && d.value <= 1.0
    case ConfidenceOutOfRange =>
      Js.LessThan(req.confidenceLevel, 1.0) || Js.GreaterThan(req.confidenceLevel, 10.0)
    case UnitSizeOutOfRange =>
      Js.Truthy(req.unitSize) && (Js.LessThan(req.unitSize, 1.0) || Js.GreaterThan(req.unitSize, 5.0))
    case InvalidEventDate => date == Unparseable
    case EventDateInPast => date == InPast
  }

  /** The errors of the first `k` checks of `validateBetCreation`, each pushed in turn when
      it is `failing`: exactly the failing checks among them, in check order. */
  function BetErrorsUpTo(failing: BetError -> bool, k: nat): (errs: seq<BetError>)
    requires k <= BetCheckCount
    ensures forall e :: e in errs <==> BetErrorRank(e) < k && failing(e)
    ensures forall i, j :: 0 <= i < j < |errs| ==> BetErrorRank(errs[i]) < BetErrorRank(errs[j])
  {
    if k == 0 then []
    else
      var before := BetErrorsUpTo(failing, k - 1);
      var check := BetCheckAt(k - 1);
      assert BetErrorRank(check) == k - 1;
      if failing(check) then before + [check] else before
  }

  /** The error list `validateBetCreation` builds: exactly the failing checks, in the order
      the validator runs them. */
  function BetCreationErrors(req: BetRequest, date: DateCheck): (errs: seq<BetError>)
    ensures forall e :: e in errs <==> BetCheckFails(req, date, e)
    ensures forall i, j :: 0 <= i < j < |errs| ==> BetErrorRank(errs[i]) < BetErrorRank(errs[j])
  {
    BetErrorsUpTo(e => BetCheckFails(req, date, e), BetCheckCount)
  }

  /** `validateBetCreation`: the request reaches the controller exactly when no check
      fails. */
  function ValidateBetCreation(req: BetRequest, date: DateCheck): (v: Verdict<BetError>)
    ensures v.Next? <==> forall e :: !BetCheckFails(req, date, e)
    ensures v.Reject? ==> v.errors == BetCreationErrors(req, date)
  {
    var errs := BetCreationErrors(req, date);
    assert |errs| > 0 ==> BetCheckFails(req, date, errs[0]);
    Respond(errs)
  }

  /** A probability of 0 is reported twice: as missing, since 0 is falsy, and as out of
      range. */
  lemma ZeroProbabilityReportedTwice(req: BetRequest, date: DateCheck)
    requires req.userProbability == Js.Num(0.0)
    ensures ValidateBetCreation(req, date) == Reject(BetCreationErrors(req, date))
    ensures ProbabilityRequired in BetCreationErrors(req, date)
    ensures ProbabilityOutOfRange in BetCreationErrors(req, date)
  {
    var errs := BetCreationErrors(req, date);
    assert BetCheckFails(req, date, ProbabilityRequired);
    assert BetCheckFails(req, date, ProbabilityOutOfRange) by {
      assert Js.ToNum(req.userProbability) == Some(0.0);
    }
    assert ProbabilityRequired in errs && ProbabilityOutOfRange in errs;
  }

  /** Numeric odds are judged as decimal odds: they fail the odds check exactly when they
      are at most 1. */
  lemma NumericOddsAreDecimal(req: BetRequest, date: DateCheck)
    requires req.odds.Num?
    ensures InvalidOddsValue in BetCreationErrors(req, date) <==> req.odds.n <= 1.0
  {
    assert BetCheckFails(req, date, InvalidOddsValue) <==> req.odds.n <= 1.0 by {
      assert Kelly.DecimalOddsOf(req.odds) == Some(req.odds.n);
    }
  }

  /** Odds given as anything but a number never fail the odds-value check: within the
      numeric text this model reads (no "Infinity"), `americanToDecimal` yields more than
      1, NaN for text that is not a number, or Infinity for 0. */
  lemma NonNumericOddsPassOddsCheck(req: BetRequest, date: DateCheck)
    requires !Js.IsNumber(req.odds)
    ensures InvalidOddsValue !in BetCreationErrors(req, date)
  {
  }

  /** A request that passes with numeric odds has odds above 1, so the Kelly calculation
      the controller then runs is defined. */
  lemma AcceptedNumericOddsSupportKelly(req: BetRequest, date: DateCheck)
    requires ValidateBetCreation(req, date).Next? && req.odds.Num?
    ensures Kelly.KellyDefined(req.odds) && Kelly.DecimalOddsOf(req.odds).value > 1.0
  {
    assert !BetCheckFails(req, date, InvalidOddsValue);
    assert !BetCheckFails(req, date, OddsRequired);
  }

  /** A probability given as non-empty text that does not coerce to a number is caught by
      neither probability check: it is truthy, and NaN fails both range comparisons. */
  lemma NonNumericProbabilityPasses(req: BetRequest, date: DateCheck)
    requires req.userProbability.Str? && req.userProbability.s != ""
    requires Js.ToNum(req.userProbability).None?
    ensures ProbabilityRequired !in BetCreationErrors(req, date)
    ensures ProbabilityOutOfRange !in BetCreationErrors(req, date)
  {
    assert !BetCheckFails(req, date, ProbabilityRequired);
    assert !BetCheckFails(req, date, ProbabilityOutOfRange);
  }

  /** The text "abc" is such a probability. */
  lemma AbcIsNotANumber()
    ensures Js.ToNum(Js.Str("abc")).None?
  {
    assert !Js.IsDigit('a');
  }

  // ---------------------------------------------------------------- validateBetUpdate

  datatype UpdateError = InvalidStatus | ResultNotNumber

  function UpdateErrorRank(e: UpdateError): nat
  {
    match e
    case InvalidStatus => 0
    case ResultNotNumber => 1
  }

  const StatusNames: seq<string> := ["pending", "won", "lost", "push", "cancelled"]

  /** `validStatuses.includes(status)`: only one of the five strings is accepted. */
  predicate ValidStatus(status: Js.Value)
  {
    status.Str? && status.s in StatusNames
  }

  predicate UpdateCheckFails(status: Js.Value, result: Js.Value, e: UpdateError)
  {
    match e
    case InvalidStatus => !ValidStatus(status)
    case ResultNotNumber => !result.Undefined? && !Js.IsNumber(result)
  }

  /** `validateBetUpdate`'s error list: a bad status, then a present non-number result. */
  function BetUpdateErrors(status: Js.Value, result: Js.Value): (errs: seq<UpdateError>)
    ensures forall e :: e in errs <==> UpdateCheckFails(status, result, e)
    ensures forall i, j :: 0 <= i < j < |errs| ==> UpdateErrorRank(errs[i]) < UpdateErrorRank(errs[j])
  {
    (if UpdateCheckFails(status, result, InvalidStatus) then [InvalidStatus] else [])
    + (if UpdateCheckFails(status, result, ResultNotNumber) then [ResultNotNumber] else [])
  }

  /** `validateBetUpdate`: an update passes exactly when its status is one of the five
      names and its result, if present, is a number. */
  function ValidateBetUpdate(status: Js.Value, result: Js.Value): (v: Verdict<UpdateError>)
    ensures v.Next? <==> ValidStatus(status) && (result.Undefined? || Js.IsNumber(result))
    ensures v.Reject? ==> v.errors == BetUpdateErrors(status, result)
  {
    var errs := BetUpdateErrors(status, result);
    assert |errs| > 0 ==> UpdateCheckFails(status, result, errs[0]);
    Respond(errs)
  }

  // ---------------------------------------------------------------- validateRiskSettings

  datatype RiskRequest = RiskRequest(
    defaultFractionMultiplier: Js.Value,
    maxBetPercentage: Js.Value,
    stopLossPercentage: Js.Value,
    stopWinPercentage: Js.Value,
    maxOpenBets: Js.Value,
    maxConsecutiveLosses: Js.Value)

  datatype RiskError =
    | FractionMultiplierOutOfRange | MaxBetOutOfRange | StopLossOutOfRange
    | StopWinNegative | MaxOpenBetsInvalid | MaxConsecutiveLossesInvalid

  function RiskErrorRank(e: RiskError): (i: nat)
    ensures i < RiskCheckCount && RiskCheckAt(i) == e
  {
    match e
    case FractionMultiplierOutOfRange => 0
    case MaxBetOutOfRange => 1
    case StopLossOutOfRange => 2
    case StopWinNegative => 3
    case MaxOpenBetsInvalid => 4
    case MaxConsecutiveLossesInvalid => 5
  }

  const RiskCheckCount: nat := 6

  function RiskCheckAt(i: nat): RiskError
    requires i < RiskCheckCount
  {
    if i == 0 then FractionMultiplierOutOfRange
    else if i == 1 then MaxBetOutOfRange
    else if i == 2 then StopLossOutOfRange
    else if i == 3 then StopWinNegative
    else if i == 4 then MaxOpenBetsInvalid
    else MaxConsecutiveLossesInvalid
  }

  /** A defined value that, coerced to a number, lies outside [0, 1]. */
  predicate OutsideUnit(v: Js.Value)
  {
    !v.Undefined? && (Js.LessThan(v, 0.0) || Js.GreaterThan(v, 1.0))
  }

  /** A defined value that is not a whole number of at least 1. */
  predicate NotPositiveInteger(v: Js.Value)
  {
    !v.Undefined? && (!Js.IsInteger(v) || Js.LessThan(v, 1.0))
  }

  predicate RiskCheckFails(req: RiskRequest, e: RiskError)
  {
    match e
    case FractionMultiplierOutOfRange => OutsideUnit(req.defaultFractionMultiplier)
    case MaxBetOutOfRange => OutsideUnit(req.maxBetPercentage)
    case StopLossOutOfRange => OutsideUnit(req.stopLossPercentage)
    case StopWinNegative => !req.stopWinPercentage.Undefined? && Js.LessThan(req.stopWinPercentage, 0.0)
    case MaxOpenBetsInvalid => NotPositiveInteger(req.maxOpenBets)
    case MaxConsecutiveLossesInvalid => NotPositiveInteger(req.maxConsecutiveLosses)
  }

  /** The errors of the first `k` checks of `validateRiskSettings`. */
  function RiskErrorsUpTo(failing: RiskError -> bool, k: nat): (errs: seq<RiskError>)
    requires k <= RiskCheckCount
    ensures forall e :: e in errs <==> RiskErrorRank(e) < k && failing(e)
    ensures forall i, j :: 0 <= i < j < |errs| ==> RiskErrorRank(errs[i]) < RiskErrorRank(errs[j])
  {
    if k == 0 then []
    else
      var before := RiskErrorsUpTo(failing, k - 1);
      var check := RiskCheckAt(k - 1);
      assert RiskErrorRank(check) == k - 1;
      if failing(check) then before + [check] else before
  }

  /** `validateRiskSettings`' error list: one entry per defined field that is out of
      bounds, in field order. */
  function RiskSettingsErrors(req: RiskRequest): (errs: seq<RiskError>)
    ensures forall e :: e in errs <==> RiskCheckFails(req, e)
    ensures forall i, j :: 0 <= i < j < |errs| ==> RiskErrorRank(errs[i]) < RiskErrorRank(errs[j])
  {
    RiskErrorsUpTo(e => RiskCheckFails(req, e), RiskCheckCount)
  }

  /** `validateRiskSettings`. */
  function ValidateRiskSettings(req: RiskRequest): (v: Verdict<RiskError>)
    ensures v.Next? <==> forall e :: !RiskCheckFails(req, e)
    ensures v.Reject? ==> v.errors == RiskSettingsErrors(req)
  {
    var errs := RiskSettingsErrors(req);
    assert |errs| > 0 ==> RiskCheckFails(req, errs[0]);
    Respond(errs)
  }

  /** Fields that are left out are never checked: an empty update passes. */
  lemma EmptyRiskUpdatePasses()
    ensures ValidateRiskSettings(RiskRequest(Js.Undefined, Js.Undefined, Js.Undefined,
                                             Js.Undefined, Js.Undefined, Js.Undefined)) == Next
  {
  }

  /** Numeric settings that pass are within the bounds the user schema declares: the three
      fractions in [0, 1], the stop-win at least 0, and the two counts whole and at
      least 1. */
  lemma AcceptedRiskSettingsInBounds(req: RiskRequest)
    requires ValidateRiskSettings(req).Next?
    ensures req.defaultFractionMultiplier.Num? ==> 0.0 <= req.defaultFractionMultiplier.n <= 1.0
    ensures req.maxBetPercentage.Num? ==> 0.0 <= req.maxBetPercentage.n <= 1.0
    ensures req.stopLossPercentage.Num? ==> 0.0 <= req.stopLossPercentage.n <= 1.0
    ensures req.stopWinPercentage.Num? ==> 0.0 <= req.stopWinPercentage.n
    ensures !req.maxOpenBets.Undefined? ==>
              req.maxOpenBets.Num? && req.maxOpenBets.n >= 1.0 && req.maxOpenBets.n.Floor as real == req.maxOpenBets.n
    ensures !req.maxConsecutiveLosses.Undefined? ==>
              req.maxConsecutiveLosses.Num? && req.maxConsecutiveLosses.n >= 1.0
  {
    assert !RiskCheckFails(req, FractionMultiplierOutOfRange);
    assert !RiskCheckFails(req, MaxBetOutOfRange);
    assert !RiskCheckFails(req, StopLossOutOfRange);
    assert !RiskCheckFails(req, StopWinNegative);
    assert !RiskCheckFails(req, MaxOpenBetsInvalid);
    assert !RiskCheckFails(req, MaxConsecutiveLossesInvalid);
  }
}
