/** The per-bookmaker comparison of `compareOdds`
    (backend/src/controllers/marketOddsController.js): for every bookmaker quoting the
    event, the requested outcome's odds are converted to decimal, the bookmaker's margin is
    taken over the outcomes it quotes, and the user's probability is compared with the
    fair probability and the price. The stored market is passed in. A JavaScript number
    that is not finite is `None`. */
module CompareOdds {
  import opened Wrappers
  import opened RealMath
  import Js
  import MarketOdds

  datatype Outcome = Home | Away | Draw

  /** One bookmaker's quote as stored; a missing price is `null` or `undefined`. */
  datatype Bookmaker = Bookmaker(name: string, homeOdds: Js.Value, awayOdds: Js.Value, drawOdds: Js.Value,
                                 oddsFormat: string)

  datatype Comparison = Comparison(
    bookmaker: string,
    originalOdds: Js.Value,
    decimalOdds: Js.Value,
    format: string,
    implied: Option<real>,
    fair: Option<real>,
    user: Option<real>,
    bookmakerMargin: Option<real>,
    edgePercentage: Option<real>,
    expectedValue: Option<real>,
    isPositiveEV: bool)

  /** The answers other than success: 400 for a missing field, 404 for an unknown market,
      and 500 for anything the comparison throws (an outcome outside home/away/draw, or a
      conversion that fails). */
  datatype Failure = MissingFields | MarketNotFound | ServerError

  /** The `switch (outcome)`: strict equality with the three names. */
  function OutcomeOf(v: Js.Value): (o: Option<Outcome>)
    ensures o == Some(Home) <==> v == Js.Str("home")
    ensures o == Some(Away) <==> v == Js.Str("away")
    ensures o == Some(Draw) <==> v == Js.Str("draw")
  {
    if v == Js.Str("home") then Some(Home)
    else if v == Js.Str("away") then Some(Away)
    else if v == Js.Str("draw") then Some(Draw)
    else None
  }

  function OddsFor(b: Bookmaker, o: Outcome): Js.Value
  {
    match o
    case Home => b.homeOdds
    case Away => b.awayOdds
    case Draw => b.drawOdds
  }

  /** The outcomes whose price is truthy, in the order home, away, draw: the set the margin
      is taken over. */
  function PresentOutcomes(b: Bookmaker): (os: seq<Outcome>)
    ensures forall o :: o in os <==> Js.Truthy(OddsFor(b, o))
    ensures |os| <= 3
  {
    (if Js.Truthy(b.homeOdds) then [Home] else [])
    + (if Js.Truthy(b.awayOdds) then [Away] else [])
    + (if Js.Truthy(b.drawOdds) then [Draw] else [])
  }

  /** The odds of one outcome converted to decimal odds and inverted, as both the selected
      outcome and every margin entry are: `calculateImpliedProbability(convertOdds(odds,
      format, 'decimal'), 'decimal')`. None is a conversion that throws. */
  function ImpliedOf(b: Bookmaker, o: Outcome): (r: Option<Option<real>>)
    ensures r.None? <==> MarketOdds.ConvertOdds(OddsFor(b, o), b.oddsFormat, "decimal").Err?
    ensures r.Some? ==> r.value == MarketOdds.ImpliedProbabilityOf(
                          Js.ToNum(MarketOdds.ConvertOdds(OddsFor(b, o), b.oddsFormat, "decimal").value))
  {
    match MarketOdds.ConvertOdds(OddsFor(b, o), b.oddsFormat, "decimal")
    case Err(_) => None
    case Ok(d) =>
      var p := MarketOdds.CalculateImpliedProbability(d, "decimal");
      Some(p.value)
  }

  /** The implied probabilities of a list of outcomes, or None when one conversion throws. */
  function ImpliedList(b: Bookmaker, os: seq<Outcome>): (r: Option<seq<Option<real>>>)
    ensures r.Some? <==> forall k :: 0 <= k < |os| ==> ImpliedOf(b, os[k]).Some?
    ensures r.Some? ==> |r.value| == |os| && forall k :: 0 <= k < |os| ==> r.value[k] == ImpliedOf(b, os[k]).value
  {
    if |os| == 0 then Some([])
    else
      match ImpliedOf(b, os[0])
      case None => None
      case Some(p) =>
        match ImpliedList(b, os[1..])
        case None => None
        case Some(rest) => Some([p] + rest)
  }

  /** The values of a list of numbers that are all finite, or None. */
  function AllFinite(xs: seq<Option<real>>): (r: Option<seq<real>>)
    ensures r.Some? <==> forall k :: 0 <= k < |xs| ==> xs[k].Some?
    ensures r.Some? ==> |r.value| == |xs| && forall k :: 0 <= k < |xs| ==> r.value[k] == xs[k].value
  {
    if |xs| == 0 then Some([])
    else if xs[0].None? then None
    else
      match AllFinite(xs[1..])
      case None => None
      case Some(rest) => Some([xs[0].value] + rest)
  }

  /** `calculateBookmakerMargin` over possibly non-finite entries: one NaN or infinity
      makes the sum non-finite. */
  function MarginOf(implied: seq<Option<real>>): (m: Option<real>)
    ensures m.Some? <==> AllFinite(implied).Some?
    ensures m.Some? ==> m.value == MarketOdds.BookmakerMargin(AllFinite(implied).value)
  {
    match AllFinite(implied)
    case None => None
    case Some(values) => Some(MarketOdds.BookmakerMargin(values))
  }

  /** `removeFairMargin` on possibly non-finite inputs. */
  function FairOf(implied: Option<real>, margin: Option<real>, outcomes: nat): (r: Option<real>)
    ensures r.Some? <==> implied.Some? && margin.Some? && 1.0 + margin.value != 0.0
    ensures r.Some? ==> r.value * (1.0 + margin.value) == implied.value
  {
    if implied.Some? && margin.Some? then MarketOdds.RemoveFairMargin(implied.value, margin.value, outcomes)
    else None
  }

  /** The record for one bookmaker once the selected odds are converted and the quoted
      outcomes inverted: the implied probability of the selected odds, the margin over the
      quoted outcomes, the fair probability, the relative edge of the user's probability
      over it, and the expected value at the converted price. */
  function Analyse(b: Bookmaker, o: Outcome, decimalOdds: Js.Value, all: seq<Option<real>>, user: Option<real>)
    : (c: Comparison)
    ensures c.bookmaker == b.name && c.originalOdds == OddsFor(b, o) && c.format == b.oddsFormat
    ensures c.decimalOdds == decimalOdds && c.user == user
    ensures c.implied == MarketOdds.ImpliedProbabilityOf(Js.ToNum(decimalOdds))
    ensures c.bookmakerMargin == MarginOf(all)
    ensures c.fair == FairOf(c.implied, c.bookmakerMargin, |all|)
    ensures c.edgePercentage.Some? <==> user.Some? && c.fair.Some? && c.fair.value != 0.0
    ensures c.edgePercentage.Some? ==>
              c.edgePercentage.value * c.fair.value == (user.value - c.fair.value) * 100.0
    ensures c.expectedValue.Some? <==> user.Some? && Js.ToNum(decimalOdds).Some?
    ensures c.expectedValue.Some? ==> c.expectedValue.value == user.value * Js.ToNum(decimalOdds).value - 1.0
    ensures c.isPositiveEV <==> c.expectedValue.Some? && c.expectedValue.value > 0.0
  {
    var implied := MarketOdds.CalculateImpliedProbability(decimalOdds, "decimal").value;
    var margin := MarginOf(all);
    var fair := FairOf(implied, margin, |all|);
    var edge := if user.Some? && fair.Some? then MarketOdds.EdgePercentage(user.value, fair.value) else None;
    var d := Js.ToNum(decimalOdds);
    var ev := if user.Some? && d.Some? then Some(MarketOdds.ExpectedValue(user.value, d.value)) else None;
    Comparison(b.name, OddsFor(b, o), decimalOdds, b.oddsFormat, implied, fair, user, margin, edge, ev,
               ev.Some? && ev.value > 0.0)
  }

  /** The comparison for one bookmaker, or None where it throws: on an outcome outside the
      three names, or on a conversion of the selected or of a quoted price that fails. */
  function CompareBookmaker(b: Bookmaker, outcome: Js.Value, user: Option<real>): (r: Option<Comparison>)
    ensures r.Some? <==>
              && OutcomeOf(outcome).Some?
              && MarketOdds.ConvertOdds(OddsFor(b, OutcomeOf(outcome).value), b.oddsFormat, "decimal").Ok?
              && ImpliedList(b, PresentOutcomes(b)).Some?
    ensures r.Some? ==>
              r.value == Analyse(b, OutcomeOf(outcome).value,
                                 MarketOdds.ConvertOdds(OddsFor(b, OutcomeOf(outcome).value), b.oddsFormat, "decimal").value,
                                 ImpliedList(b, PresentOutcomes(b)).value, user)
  {
    match OutcomeOf(outcome)
    case None => None
    case Some(o) =>
      match MarketOdds.ConvertOdds(OddsFor(b, o), b.oddsFormat, "decimal")
      case Err(_) => None
      case Ok(decimalOdds) =>
        match ImpliedList(b, PresentOutcomes(b))
        case None => None
        case Some(all) => Some(Analyse(b, o, decimalOdds, all, user))
  }

  /** The `map` over the bookmakers: one comparison each, in order; the first one that
      throws aborts the whole map. */
  function CompareAll(bs: seq<Bookmaker>, outcome: Js.Value, user: Option<real>): (r: Option<seq<Comparison>>)
    ensures r.Some? <==> forall k :: 0 <= k < |bs| ==> CompareBookmaker(bs[k], outcome, user).Some?
    ensures r.Some? ==> |r.value| == |bs|
                        && forall k :: 0 <= k < |bs| ==> r.value[k] == CompareBookmaker(bs[k], outcome, user).value
  {
    if |bs| == 0 then Some([])
    else
      match CompareBookmaker(bs[0], outcome, user)
      case None => None
      case Some(c) =>
        match CompareAll(bs[1..], outcome, user)
        case None => None
        case Some(rest) => Some([c] + rest)
  }

  /** What the ranking comparator reads: a comparison has no top-level `edgePercentage`
      (the edge sits under `analysis`), so the field is always undefined. */
  function TopLevelEdge(c: Comparison): Option<real>
  {
    None
  }

  datatype Request = Request(eventId: Js.Value, marketType: Js.Value, userProbability: Js.Value, outcome: Js.Value)

  /** `compareOdds`: the required-field check, the market lookup (done by the caller), the
      comparisons, and the ranking step. */
  function CompareOddsResponse(req: Request, market: Option<seq<Bookmaker>>): (r: Result<seq<Comparison>, Failure>)
    ensures r == Err(MissingFields) <==>
              !(Js.Truthy(req.eventId) && Js.Truthy(req.marketType) && Js.Truthy(req.userProbability)
                && Js.Truthy(req.outcome))
    ensures r == Err(MarketNotFound) <==>
              Js.Truthy(req.eventId) && Js.Truthy(req.marketType) && Js.Truthy(req.userProbability)
              && Js.Truthy(req.outcome) && market.None?
    ensures r.Ok? ==> market.Some? && |r.value| == |market.value|
  {
    if !(Js.Truthy(req.eventId) && Js.Truthy(req.marketType) && Js.Truthy(req.userProbability)
         && Js.Truthy(req.outcome)) then Err(MissingFields)
    else if market.None? then Err(MarketNotFound)
    else
      match CompareAll(market.value, req.outcome, Js.ParseFloatValue(req.userProbability))
      case None => Err(ServerError)
      case Some(cs) => Ok(MarketOdds.RankByEdge(TopLevelEdge, cs))
  }

  /** The ranking step changes nothing: the answer lists the bookmakers' comparisons in the
      stored order. */
  lemma RankingKeepsBookmakerOrder(req: Request, market: Option<seq<Bookmaker>>)
    requires CompareOddsResponse(req, market).Ok?
    ensures var cs := CompareOddsResponse(req, market).value;
            forall k :: 0 <= k < |cs| ==>
              cs[k] == CompareBookmaker(market.value[k], req.outcome, Js.ParseFloatValue(req.userProbability)).value
  {
    var cs := CompareAll(market.value, req.outcome, Js.ParseFloatValue(req.userProbability)).value;
    MarketOdds.RankByEdgeWithoutEdges(TopLevelEdge, cs);
  }

  /** A probability of 0 is falsy and is turned away as missing. */
  lemma ZeroProbabilityIsMissing(req: Request, market: Option<seq<Bookmaker>>)
    requires req.userProbability == Js.Num(0.0)
    ensures CompareOddsResponse(req, market) == Err(MissingFields)
  {
  }

  /** An unknown outcome fails the request as soon as there is one bookmaker to compare; a
      market with no bookmakers never reaches the `switch` and answers an empty list. */
  lemma InvalidOutcome(req: Request, market: Option<seq<Bookmaker>>)
    requires Js.Truthy(req.eventId) && Js.Truthy(req.marketType) && Js.Truthy(req.userProbability)
    requires Js.Truthy(req.outcome) && OutcomeOf(req.outcome).None? && market.Some?
    ensures |market.value| > 0 ==> CompareOddsResponse(req, market) == Err(ServerError)
    ensures |market.value| == 0 ==> CompareOddsResponse(req, market) == Ok([])
  {
    if |market.value| > 0 {
      assert CompareBookmaker(market.value[0], req.outcome, Js.ParseFloatValue(req.userProbability)).None?;
    }
  }

  /** A bookmaker without a draw price takes its margin over home and away alone. */
  lemma NullDrawLeftOutOfMargin(b: Bookmaker)
    requires Js.Truthy(b.homeOdds) && Js.Truthy(b.awayOdds) && b.drawOdds == Js.Null
    ensures PresentOutcomes(b) == [Home, Away]
  {
  }

  /** The fair probability of an outcome, as the comparison for that outcome reports it. */
  function FairFor(b: Bookmaker, o: Outcome): Option<real>
  {
    match ImpliedList(b, PresentOutcomes(b))
    case None => None
    case Some(all) =>
      match ImpliedOf(b, o)
      case None => None
      case Some(implied) => FairOf(implied, MarginOf(all), |all|)
  }

  /** The comparison for a quoted outcome reports `FairFor`. */
  lemma CompareReportsFair(b: Bookmaker, o: Outcome, outcome: Js.Value, user: Option<real>)
    requires OutcomeOf(outcome) == Some(o)
    requires CompareBookmaker(b, outcome, user).Some?
    ensures CompareBookmaker(b, outcome, user).value.fair == FairFor(b, o)
  {
  }

  /** When every quoted outcome converts to a finite probability and they do not sum to
      0, the fair probabilities of the quoted outcomes add up to exactly one. */
  lemma FairOfPresentSumToOne(b: Bookmaker)
    requires ImpliedList(b, PresentOutcomes(b)).Some?
    requires AllFinite(ImpliedList(b, PresentOutcomes(b)).value).Some?
    requires Sum(AllFinite(ImpliedList(b, PresentOutcomes(b)).value).value) != 0.0
    ensures var os := PresentOutcomes(b);
            && (forall k :: 0 <= k < |os| ==> FairFor(b, os[k]).Some?)
            && Sum(seq(|os|, k requires 0 <= k < |os| => FairFor(b, os[k]).value)) == 1.0
  {
    var os := PresentOutcomes(b);
    var all := ImpliedList(b, os).value;
    var values := AllFinite(all).value;
    var fair := MarketOdds.FairProbabilities(values);
    var margin := MarketOdds.BookmakerMargin(values);
    assert 1.0 + margin == Sum(values);
    forall k | 0 <= k < |os|
      ensures FairFor(b, os[k]) == Some(fair[k])
    {
      assert ImpliedOf(b, os[k]).value == all[k];
      assert all[k] == Some(values[k]);
    }
    var reported := seq(|os|, k requires 0 <= k < |os| => FairFor(b, os[k]).value);
    assert reported == fair;
    MarketOdds.FairProbabilitiesSumToOne(values);
  }
}
