# Kelly-criterion betting core, modelled in Dafny

This project models the numeric decision logic of a sports-betting assistant, a Node/Express
back end with a React front end. It covers what the application computes and what it
decides. It does not cover how the application stores, serves or displays the results.
Each Dafny module follows one source file, or one fragment of a source file.

- **Odds.** Odds arrive as American prices, decimal odds or fractional text. `Kelly`,
  `MarketOdds` and `Fractions` model the conversions. `Fractions` covers the search for the
  closest fraction with denominator at most 100, and its reduction by a gcd computed with
  JavaScript's truncating remainder.
- **Stake sizing.** `Kelly` models the back end's `calculateKellyBet` and
  `calculateRiskMetrics`. `BetCalc` models the front end's `calculateKelly`, which uses a
  relative edge and scales the stake by confidence. `MarketComparison` models the front
  end's fractional Kelly stake, the edge categories and colours, the break-even threshold
  and the odds display.
- **Market comparison.** `MarketOdds` models the bookmaker margin, proportional de-vigging,
  expected value, the edge in percent and the ranking by edge. `CompareOdds` models the
  per-bookmaker mapping of the `compareOdds` controller.
- **Multi-factor probability engine** (`Factors`):
  - each user input is normalised by its input type and weighted into a contribution;
  - correlated pairs are adjusted;
  - the contributions are folded into a probability around a base;
  - the result gets a confidence score and an interval;
  - the correlation matrix is assembled from string keys.
- **Regression to the mean.** `Regression` models reliability, the true-talent blend, the
  sport and metric tables with their fallbacks, the bounded probability adjustment and the
  four cognitive-bias checks. `RegressionUtils` models the front end's colour bands, texts
  and chart helpers for the same results.
- **Calibration.**
  - `Calibration` models the Brier score, the binned calibration curve, the over- and
    under-confidence totals and the rule-based recommendations.
  - `HistoricalData` models the stored-game methods `calculateBrierScore` and
    `calculateCalibration`. It also models the folds of `getPredictionAccuracy` and
    `getModelPerformance`.
- **Statistical models.** `StatModels` models Elo, the Poisson double sum and the
  weighted-feature regression. `ProbabilityBlend` models how `calculateProbability`
  averages them.
- **Records and transitions.**
  - `UserRecord`: streak tracking, the derived statistics, the bankroll log and the
    initial-bankroll rule.
  - `BetRecord`: the bet schema, its potential-profit rule and its ROI.
  - `BetFlow`: the risk gates and the document of `createBet`, the settlement of
    `updateBetResult`, and the analysis added by `getBet`.
  - `TeamPerformance`: the metric upsert and the history filter.
  - `FactorRecord`: per-user factor weights and the sport filter.
  - `ProbabilityProfile`: the save hooks of a probability profile.
- **Validators.** `Validation` models the request validators, each as an ordered error list.

## Representation

- **Numbers.** A JavaScript number is a Dafny `real`, an exact rational. Where NaN and the
  infinities change what the source does, a value is an `Ieee.Number`: a finite real,
  +Infinity, -Infinity or NaN, with the IEEE 754 rules for adding, multiplying, dividing,
  comparing and clamping them. The factor engine and the regression engine use it. Other
  modules keep an `Option<real>`, with `None` standing for every non-finite value.
- **Request fields.** The request fields that the modelled validators read are `Js.Value`:
  undefined, null, a boolean, a number, NaN or a string. So are a bet's odds and a factor
  input's value. Some other request fields are numbers or options here, and each such
  field is named under "Left out". Among them are the features of the regression and the
  `factors` object of `calculateProbability`: those are key/value pairs with numeric
  values. `Js` models what the core relies on:
  - truthiness;
  - `Number(x)` and `parseFloat(x)`;
  - integer printing;
  - `split`, `toLowerCase`, `trim` and `includes`;
  - an object built from key/value pairs (`Js.Entries`), where a repeated key keeps its
    first place and its last value, and `o[key]` (`Js.Get`) reads that last value.
- **Things outside rational arithmetic** become parameters supplied by the caller, with
  only the facts each property needs:
  - `Math.pow(10, x)` in Elo;
  - `Math.exp(-x)` in the Poisson term;
  - `Math.sqrt(n)` in the regression interval.

  The Poisson term's factorial is computed exactly.
- **Database state.** Whatever a controller reads from the database is passed in:
  - the number of open bets;
  - today's results;
  - the stored market;
  - the other stored profiles;
  - the default profile's home advantage.
- **Dates** are whole numbers.

## Model

| member | source | states |
|---|---|---|
| Kelly.AmericanToDecimal | backend/src/utils/kellyCalculations.js:6-11 | a positive price a reads as a/100 + 1 and a negative one as 100/abs(a) + 1, always above 1; a price of 0 gives a non-finite result |
| Kelly.AmericanValueToDecimal | backend/src/utils/kellyCalculations.js:38-40 | a non-number is coerced with Number() before conversion and the result is finite exactly when that number is finite and non-zero |
| Kelly.DecimalOddsOf | backend/src/utils/kellyCalculations.js:20-22 | a value of type number is already decimal odds; anything else is converted as an American price |
| Kelly.ImpliedProbability | backend/src/utils/kellyCalculations.js:14-16 | the implied probability is the reciprocal of the decimal odds and lies strictly between 0 and 1 for odds above 1 |
| Kelly.Edge | backend/src/utils/kellyCalculations.js:19-25 | the edge plus the implied probability gives back the user's probability |
| Kelly.RiskLevelOf | backend/src/utils/kellyCalculations.js:69 | high exactly above 0.1, medium exactly in (0.05, 0.1], low otherwise |
| Kelly.CalculateKellyBet | backend/src/utils/kellyCalculations.js:36-73 | the fraction is the raw Kelly fraction times the multiplier, capped at the maximum and floored at 0; the edge, implied probability, value flag, risk level and "no bet" (exactly when the fraction is 0) follow from it |
| Kelly.RawKellyMonotone | backend/src/utils/kellyCalculations.js:46-50 | for odds above 1 a higher win probability never gives a smaller raw Kelly fraction |
| Kelly.RawKellyPositiveIffEdge | backend/src/utils/kellyCalculations.js:44-50 | for odds above 1 the raw Kelly fraction is positive exactly when the edge is |
| Kelly.AppliedFractionPositive | backend/src/utils/kellyCalculations.js:53-59 | with a positive multiplier and cap, the applied fraction is non-zero exactly when the raw fraction is positive |
| Kelly.RecommendationFollowsEdge | backend/src/utils/kellyCalculations.js:61-72 | with odds above 1 and positive multiplier and cap, the recommendation is "bet" exactly when the bet has value |
| Kelly.CalculateRiskMetrics | backend/src/utils/kellyCalculations.js:82-97 | the profit is stake times (odds - 1), the maximum loss is the stake, and each ratio times its divisor gives back its dividend (non-finite when that divisor is 0) |
| BetCalc.ClampProbability | smart-sports-betting/src/utils/betCalculations.js:12 | the probability is clamped to [0.01, 0.99] and left alone inside that range |
| BetCalc.DecimalOddsOf | smart-sports-betting/src/utils/betCalculations.js:15-36 | fractional odds that are not text throw; any format other than american or fractional is read with parseFloat |
| BetCalc.AmericanOddsAboveOne | smart-sports-betting/src/utils/betCalculations.js:16-22 | a non-zero American price reads as price/100 + 1 or 100/abs(price) + 1, both above 1 |
| BetCalc.FractionalText | smart-sports-betting/src/utils/betCalculations.js:23-29 | text "n/d" with numeric halves and d non-zero reads as n/d + 1 |
| BetCalc.FractionalFallback | smart-sports-betting/src/utils/betCalculations.js:30-32 | fractional text without exactly one '/' is read whole with parseFloat |
| BetCalc.RiskOf | smart-sports-betting/src/utils/betCalculations.js:54-59 | a size above 5 percent is high, below 2 low, medium in between, each an if-and-only-if |
| BetCalc.AdviceAt | smart-sports-betting/src/utils/betCalculations.js:38-67 | the break-even probability is the reciprocal of the odds in percent, the relative edge times it is the probability gap, the size is the confidence-scaled Kelly percentage floored at 0 and its risk label is RiskOf |
| BetCalc.CalculateKelly | smart-sports-betting/src/utils/betCalculations.js:10-68 | a TypeError exactly when the odds cannot be split; otherwise the figures of AdviceAt with the default confidence 3, or a non-finite result at odds that are non-finite or 0 |
| BetCalc.EdgeEqualsExpectedValue | smart-sports-betting/src/utils/betCalculations.js:42-65 | the relative edge in percent equals the expected value in percent |
| BetCalc.NeutralConfidence | smart-sports-betting/src/utils/betCalculations.js:48-51 | confidence level 3 leaves the Kelly percentage unscaled |
| BetCalc.BreakEvenHasNoValue | smart-sports-betting/src/utils/betCalculations.js:39-66 | at the reported break-even probability the expected value is 0 |
| BetRecord.SavePotentialProfit | backend/src/models/betModel.js:119-128 | only the potential profit changes, and only when stake or odds changed; it is then the stake times the American payout, non-finite at odds 0, and non-negative for a non-negative stake |
| BetRecord.AmericanProfit | backend/src/models/betModel.js:121-125 | positive American odds profit the stake times odds/100, negative ones profit the stake times 100/|odds| |
| BetRecord.CalculateRoi | backend/src/models/betModel.js:131-136 | null unless won or lost; otherwise ROI times stake is result times 100, non-finite for a zero stake, and positive exactly when the result is |
| ProbabilityProfile.Weights | backend/src/models/probabilityProfile.js:70 | the weights are read off the factors in order |
| ProbabilityProfile.Save | backend/src/models/probabilityProfile.js:3-91 | the save succeeds exactly when the schema (non-empty profile and factor names, a known sport, weights and probabilities in [0, 1]), the weight sum and default uniqueness all pass; a schema failure or a bad weight sum is reported as such; a saved profile is the input with the update time stamped |
| ProbabilityProfile.SavedProfileIsConsistent | backend/src/models/probabilityProfile.js:3-91 | a saved profile has a non-empty name and named factors, a known sport and bounds in [0, 1], its weights sum to 1 within 0.0001, and a default one clashes with no stored default |
| ProbabilityProfile.UnnamedRejected | backend/src/models/probabilityProfile.js:3-28 | a profile with an empty name, or with a factor whose name is empty, fails validation |
| ProbabilityProfile.EmptyFactorsRejected | backend/src/models/probabilityProfile.js:69-75 | a profile without factors is never saved |
| ProbabilityProfile.ZeroWeightFactorIsNeutral | backend/src/models/probabilityProfile.js:70-71 | a factor of weight 0 changes neither the total nor the verdict on it |
| ProbabilityProfile.SaveIsIdempotent | backend/src/models/probabilityProfile.js:62-91 | saving a saved profile again at the same time gives the same result |
| ProbabilityProfile.NonDefaultNeverClashes | backend/src/models/probabilityProfile.js:78-91 | a valid profile that is not a default always saves |
| MarketOdds.AmericanToDecimal | backend/src/utils/marketOddsCalculations.js:10-17 | price 0 maps to 1; a positive price is 100 times the decimal profit, a negative one times the profit is 100; every non-zero price gives odds above 1 |
| MarketOdds.AmericanNumberToDecimal | backend/src/utils/marketOddsCalculations.js:94 | a non-finite input stays non-finite and a finite one converts as above |
| MarketOdds.DecimalToAmerican | backend/src/utils/marketOddsCalculations.js:24-31 | odds 1 map to 0, odds of at least 2 to a price of at least 100 within rounding of (d - 1)·100, odds in (1, 2) to a price of at most -100, odds below 1 to a non-negative price |
| MarketOdds.DecimalNumberToAmerican | backend/src/utils/marketOddsCalculations.js:108-109 | a non-finite input stays non-finite and a finite one converts as above |
| MarketOdds.AmericanRoundTrip | backend/src/utils/marketOddsCalculations.js:10-31 | a whole price of 0, at least 100 or below -100 survives American to decimal to American |
| MarketOdds.EvenMoneyRoundTrip | backend/src/utils/marketOddsCalculations.js:10-31 | -100 comes back as +100, since both mean even money |
| MarketOdds.DecimalRoundTrip | backend/src/utils/marketOddsCalculations.js:10-31 | decimal odds whose American price is whole survive decimal to American to decimal |
| MarketOdds.AgreesWithKellyConversion | backend/src/utils/marketOddsCalculations.js:10-17 | for a non-zero price this conversion and the one in kellyCalculations.js agree |
| MarketOdds.FractionalToDecimal | backend/src/utils/marketOddsCalculations.js:38-41 | a finite result needs a '/' in the text |
| MarketOdds.FractionTextParses | backend/src/utils/marketOddsCalculations.js:38-41 | the text "p/q" printed for a fraction reads back as p/q + 1 |
| MarketOdds.DecimalToFractional | backend/src/utils/marketOddsCalculations.js:48-77 | non-finite odds print "1/1"; finite odds print some fraction whose denominator is at most 100 in size (its value is stated by DecimalToFractionalReadsBack) |
| MarketOdds.DecimalToFractionalReadsBack | backend/src/utils/marketOddsCalculations.js:48-77 | the printed fraction reads back as the best approximation, with denominator at most 100, of the odds minus one, plus one |
| MarketOdds.DecimalToFractionalExact | backend/src/utils/marketOddsCalculations.js:48-77 | odds 1 + p/q with p/q in lowest terms and q at most 100 print exactly "p/q", and that text converts back to the same odds |
| MarketOdds.TextOfBest | backend/src/utils/marketOddsCalculations.js:74-76 | a best approximation that is already reduced prints as itself |
| MarketOdds.FractionalValueToDecimal | backend/src/utils/marketOddsCalculations.js:39 | calling it on a value that is not text throws |
| MarketOdds.ToDecimal | backend/src/utils/marketOddsCalculations.js:92-104 | an error exactly when the input format is not american, decimal or fractional |
| MarketOdds.ConvertOdds | backend/src/utils/marketOddsCalculations.js:86-117 | equal formats return the input untouched; an unknown source or target format throws; a fractional target is always text |
| MarketOdds.ConvertAmericanRoundTrip | backend/src/utils/marketOddsCalculations.js:86-117 | a whole price outside (-100, 100), or 0, survives American to decimal to American |
| MarketOdds.ConvertFractionalRoundTrip | backend/src/utils/marketOddsCalculations.js:86-117 | "p/q" in lowest terms with q at most 100 survives fractional to decimal to fractional |
| MarketOdds.ConvertFractionalToDecimal | backend/src/utils/marketOddsCalculations.js:99-101 | "p/q" converts to the decimal odds p/q + 1 |
| MarketOdds.ConvertDecimalToFractional | backend/src/utils/marketOddsCalculations.js:112-113 | decimal odds p/q + 1 in lowest terms with q at most 100 convert to "p/q" |
| MarketOdds.ImpliedProbabilityOf | backend/src/utils/marketOddsCalculations.js:124-126 | finite exactly for finite non-zero odds, and then the reciprocal of the odds |
| MarketOdds.CalculateImpliedProbability | backend/src/utils/marketOddsCalculations.js:134-137 | for format 'decimal' it is the reciprocal of the coerced input; a finite result is never 0 |
| MarketOdds.BookmakerMargin | backend/src/utils/marketOddsCalculations.js:144-147 | the margin is the sum of the implied probabilities less 1: it is positive exactly when the implied probabilities add up to more than 1, is -1 for no outcomes, and is at least -1 when no probability is negative |
| MarketOdds.RemoveFairMargin | backend/src/utils/marketOddsCalculations.js:156-159 | the fair probability times (1 + margin) is the implied probability; non-finite when 1 + margin is 0 |
| MarketOdds.FairProbabilities | backend/src/utils/marketOddsCalculations.js:144-159 | one fair probability per outcome, each its implied probability with the market's margin removed |
| MarketOdds.FairProbabilitiesSumToOne | backend/src/utils/marketOddsCalculations.js:144-159 | removing the margin from every outcome leaves probabilities that sum to exactly 1 |
| MarketOdds.ExpectedValue | backend/src/utils/marketOddsCalculations.js:167-169 | the expected value per unit staked is p·d - 1 |
| MarketOdds.EdgePercentage | backend/src/utils/marketOddsCalculations.js:177-179 | the edge percentage times the implied probability is 100 times their difference; non-finite at implied probability 0 |
| MarketOdds.IsPositiveEV | backend/src/utils/marketOddsCalculations.js:187-189 | positive exactly when p·d exceeds 1 |
| MarketOdds.EdgeIsScaledExpectedValue | backend/src/utils/marketOddsCalculations.js:167-179 | against the market's own implied probability the edge percentage is 100 times the expected value |
| MarketOdds.PositiveEVBeatsMarket | backend/src/utils/marketOddsCalculations.js:124-189 | for positive odds, positive expected value means the user's probability beats the implied one |
| MarketOdds.Insert | backend/src/utils/marketOddsCalculations.js:197 | insertion adds exactly one element: the multiset grows by it |
| MarketOdds.RankByEdge | backend/src/utils/marketOddsCalculations.js:196-198 | the ranking is a permutation of the opportunities |
| MarketOdds.RankByEdgeRanked | backend/src/utils/marketOddsCalculations.js:196-198 | when every edge is known the ranking has the highest edge first |
| MarketOdds.RankByEdgeKeepsRanked | backend/src/utils/marketOddsCalculations.js:196-198 | input already ranked comes back unchanged, since the sort is stable |
| MarketOdds.RankByEdgeWithoutEdges | backend/src/utils/marketOddsCalculations.js:196-198 | records without an edge compare as equal, so they keep their order |
| Fractions.TruncRem | backend/src/utils/marketOddsCalculations.js:52 | JavaScript's remainder is smaller in magnitude than the divisor and non-negative for a non-negative dividend |
| Fractions.TruncDivision | backend/src/utils/marketOddsCalculations.js:52 | the truncating quotient and remainder recombine to the dividend |
| Fractions.GcdCofactors | backend/src/utils/marketOddsCalculations.js:52 | the recursive gcd is non-zero when the second argument is, and divides both arguments |
| Fractions.GcdDivides | backend/src/utils/marketOddsCalculations.js:52 | the gcd leaves no remainder on either argument |
| Fractions.GcdNonNegative | backend/src/utils/marketOddsCalculations.js:52 | the gcd of non-negative arguments is non-negative |
| Fractions.Reduce | backend/src/utils/marketOddsCalculations.js:74-76 | dividing both parts by the gcd keeps the value and never grows the denominator |
| Fractions.Search | backend/src/utils/marketOddsCalculations.js:61-72 | the loop returns a denominator in [1, 100] no worse than the best so far, and no denominator from the current one on beats it, unless the result is itself within 1e-6 of x |
| Fractions.BestApproximation | backend/src/utils/marketOddsCalculations.js:56-72 | the result has a denominator in [1, 100], is at least as close as the starting 1/1, and no denominator up to 100 is closer, unless the result is itself within 1e-6 of x |
| Fractions.NoExactBelowMeans | backend/src/utils/marketOddsCalculations.js:61-72 | the recursive "no exact denominator below" agrees with its quantified reading |
| Fractions.InexactErrorBound | backend/src/utils/marketOddsCalculations.js:53-70 | when x is exact at some q at most 100, every inexact denominator misses it by at least 1/10000, far above the 1e-6 cut-off |
| Fractions.SearchKeepsExactBest | backend/src/utils/marketOddsCalculations.js:65 | once the best candidate is exact no later denominator replaces it |
| Fractions.SearchFindsLeast | backend/src/utils/marketOddsCalculations.js:61-72 | started below the least exact denominator q, the loop stops with x·q over q |
| Fractions.SearchHitsExact | backend/src/utils/marketOddsCalculations.js:65-70 | at an exact denominator the loop takes that fraction and stops |
| Fractions.BestApproximationExact | backend/src/utils/marketOddsCalculations.js:56-72 | when x is p/q in lowest terms with q at most 100 the search finds exactly p/q |
| Fractions.SmallerExact | backend/src/utils/marketOddsCalculations.js:75 | a common factor of at least 2 gives a smaller exact denominator |
| Fractions.ReduceLowestTerms | backend/src/utils/marketOddsCalculations.js:75-76 | a non-negative fraction over its least denominator is not changed by the gcd reduction |
| MarketComparison.FormatOdds | smart-sports-betting/src/utils/marketComparisonUtils.js:22-70 | falsy odds print "N/A"; American mode prints the back end's American price with a '+' from odds 2 up; fractional mode prints the back end's fraction search; any other format prints two-decimal odds |
| MarketComparison.FormatAmericanRoundTrip | smart-sports-betting/src/utils/marketComparisonUtils.js:26-30 | a whole price of at least 100 is printed back as "+price" |
| MarketComparison.FormatNegativeAmericanRoundTrip | smart-sports-betting/src/utils/marketComparisonUtils.js:26-33 | a whole price below -100 is printed back as itself |
| MarketComparison.FormatFractionalExact | smart-sports-betting/src/utils/marketComparisonUtils.js:35-63 | odds p/q + 1 in lowest terms with q at most 100 print as "p/q" |
| MarketComparison.FractionDivisor | smart-sports-betting/src/utils/marketComparisonUtils.js:88-96 | 'half' divides by 2, 'quarter' by 4, and any other string leaves full Kelly |
| MarketComparison.StakeShare | smart-sports-betting/src/utils/marketComparisonUtils.js:81-99 | the share of the bankroll staked always lies in [0, 1] |
| MarketComparison.KellyBetSize | smart-sports-betting/src/utils/marketComparisonUtils.js:80-102 | away from odds 1 the stake is the clamped share times the bankroll; the result is non-finite only at odds 1 with probability 1; for a non-negative bankroll it lies in [0, bankroll] |
| MarketComparison.NoEdgeNoStake | smart-sports-betting/src/utils/marketComparisonUtils.js:80-102 | for odds above 1 and p·d at most 1 the stake is exactly 0 |
| MarketComparison.FractionalShareLess | smart-sports-betting/src/utils/marketComparisonUtils.js:88-99 | a fractional share never exceeds the full-Kelly share |
| MarketComparison.FractionalKellyStakesLess | smart-sports-betting/src/utils/marketComparisonUtils.js:80-102 | half and quarter Kelly never stake more than full Kelly |
| MarketComparison.GetEdgeCategory | smart-sports-betting/src/utils/marketComparisonUtils.js:131-136 | the line is split into strong above 10, moderate in (5, 10], weak in (0, 5] and negative at or below 0, each an if-and-only-if |
| MarketComparison.GetEdgeColor | smart-sports-betting/src/utils/marketComparisonUtils.js:143-149 | warning exactly in (-5, 0] and error exactly at or below -5 |
| MarketComparison.ColorMatchesCategory | smart-sports-betting/src/utils/marketComparisonUtils.js:131-149 | each positive category has its own colour, and the negative category is exactly the warning and error colours |
| MarketComparison.BettingThreshold | smart-sports-betting/src/utils/marketComparisonUtils.js:158-164 | the threshold is the back end's fair probability raised by the required edge; non-finite exactly when the margin is -1 |
| MarketComparison.ThresholdGivesRequiredEdge | smart-sports-betting/src/utils/marketComparisonUtils.js:151-164 | a probability at or above the threshold has an edge percentage over the fair probability of at least the required edge |
| MarketComparison.ShortBookmakerName | smart-sports-betting/src/utils/marketComparisonUtils.js:171-178 | a name of at most two space-separated parts is kept; a longer one becomes its first two parts joined by one space |
| MarketComparison.ShortNameIsPrefix | smart-sports-betting/src/utils/marketComparisonUtils.js:171-178 | the short name is a prefix of the full name with at most one space |
| CompareOdds.OutcomeOf | backend/src/controllers/marketOddsController.js:170-182 | only the strings home, away and draw select an outcome |
| CompareOdds.PresentOutcomes | backend/src/controllers/marketOddsController.js:191-209 | exactly the outcomes with truthy odds enter the margin, at most three |
| CompareOdds.ImpliedOf | backend/src/controllers/marketOddsController.js:193-196 | a throw exactly when converting the quoted odds fails; otherwise the reciprocal of the decimal odds |
| CompareOdds.ImpliedList | backend/src/controllers/marketOddsController.js:191-209 | one implied probability per present outcome, in order, unless a conversion throws |
| CompareOdds.MarginOf | backend/src/controllers/marketOddsController.js:211 | a finite margin exactly when every implied probability is finite, and then the back end's margin of them |
| CompareOdds.FairOf | backend/src/controllers/marketOddsController.js:214-218 | the fair probability times (1 + margin) is the implied probability |
| CompareOdds.Analyse | backend/src/controllers/marketOddsController.js:185-250 | the comparison record: implied, margin and fair probability from the back end helpers, an edge exactly when the user probability and a non-zero fair probability exist, EV = p·d - 1, and isPositiveEV exactly when EV > 0 |
| CompareOdds.CompareBookmaker | backend/src/controllers/marketOddsController.js:167-251 | one bookmaker's comparison exists exactly when the outcome is known and every needed conversion succeeds |
| CompareOdds.CompareAll | backend/src/controllers/marketOddsController.js:167 | one comparison per bookmaker in order, or a throw if any bookmaker throws |
| CompareOdds.CompareOddsResponse | backend/src/controllers/marketOddsController.js:152-275 | 400 exactly when a required field is falsy, 404 exactly when the fields are there but the market is not, otherwise one comparison per bookmaker |
| CompareOdds.RankingKeepsBookmakerOrder | backend/src/controllers/marketOddsController.js:246-254 | the ranking reads a field the records lack, so the answer keeps the bookmakers' stored order |
| CompareOdds.ZeroProbabilityIsMissing | backend/src/controllers/marketOddsController.js:156-158 | a user probability of 0 is falsy and rejected as missing |
| CompareOdds.InvalidOutcome | backend/src/controllers/marketOddsController.js:170-182 | an unknown outcome throws once there is a bookmaker, and an empty market answers an empty list |
| CompareOdds.NullDrawLeftOutOfMargin | backend/src/controllers/marketOddsController.js:204-209 | a null draw price is left out of the margin |
| CompareOdds.CompareReportsFair | backend/src/controllers/marketOddsController.js:214-218 | the reported fair probability is the outcome's implied probability with the bookmaker's margin removed |
| CompareOdds.FairOfPresentSumToOne | backend/src/controllers/marketOddsController.js:191-218 | the fair probabilities of a bookmaker's present outcomes sum to 1 |
| Factors.IndexOf | backend/src/utils/factorCalculations.js:35 | the index of the first option equal to the value, or -1 exactly when no option equals it |
| Factors.NormalizeFactorValue | backend/src/utils/factorCalculations.js:12-43 | binary gives 1 for a truthy value and 0 otherwise; percentage passes the value through as given; scale without both bounds divides by 10 and scale with bounds rescales; select without options or without a match gives 0, and a match in a single-option list gives NaN (0/0); an unknown type gives 0 |
| Factors.ScaledByTen | backend/src/utils/factorCalculations.js:26 | the scaled value times 10 is the coerced input; it is NaN exactly when the input does not coerce to a number, and never infinite |
| Factors.Rescale | backend/src/utils/factorCalculations.js:23-24 | the rescaled value is finite exactly when the input is a number and the bounds differ, and then maps back onto the input through the bounds; with equal bounds a value above them gives +Infinity, one below gives -Infinity, and the bound itself gives NaN |
| Factors.EqualBounds | backend/src/utils/factorCalculations.js:21-25 | a scale factor whose bounds coincide normalises a value above them to +Infinity, one below to -Infinity, and the bound itself to NaN |
| Factors.ScaleWithinBounds | backend/src/utils/factorCalculations.js:21-25 | a value between distinct bounds normalises to a finite number in [0, 1], with the minimum at 0 and the maximum at 1 |
| Factors.SelectPosition | backend/src/utils/factorCalculations.js:32-37 | the k-th option of at least two normalises to k/(len - 1), which lies in [0, 1] |
| Factors.FactorContribution | backend/src/utils/factorCalculations.js:53-60 | the contribution is finite exactly when the coerced normalised value is; it is NaN exactly when that value is NaN, or infinite with weight times impact 0; it is +Infinity exactly when the infinity and weight times impact have the same sign |
| Factors.ContributionBounded | backend/src/utils/factorCalculations.js:53-60 | a value and impact in [0, 1] with a weight in [0, 10] give a contribution in [0, 1] |
| Factors.ResolveWeight | backend/src/utils/factorCalculations.js:252 | a non-zero explicit weight wins, then a non-zero per-user weight, then the statistical weight |
| Factors.ZeroWeightFallsThrough | backend/src/utils/factorCalculations.js:252 | an explicit weight of 0 is treated as no weight at all |
| Factors.ResolvedWeightValid | backend/src/utils/factorCalculations.js:252 | from valid weights the resolved weight lies in [0, 10] |
| Factors.ProcessInput | backend/src/utils/factorCalculations.js:249-267 | a processed input keeps its key and value, takes name and category from its definition, normalises the value by the definition, uses the resolved weight, and has a finite contribution exactly when the coerced normalised value is finite; a NaN contribution comes only from a NaN or infinite value |
| Factors.FindDefinition | backend/src/utils/factorCalculations.js:241-244 | a definition is found exactly when one has the key, and it carries that key |
| Factors.FindDefinitionLast | backend/src/utils/factorCalculations.js:242-244 | of several definitions with one key the last one wins, as with Map.set |
| Factors.ProcessInputs | backend/src/utils/factorCalculations.js:247-268 | no more outputs than inputs, each with a known key |
| Factors.ProcessInputsKeys | backend/src/utils/factorCalculations.js:247-248 | the processed factors are exactly the inputs with a known key, in input order |
| Factors.AdjustPair | backend/src/utils/factorCalculations.js:87-101 | a pair with coefficient 0, a NaN side, or a total that is not above 0 is left alone; finite contributions stay finite; an infinite side with a non-zero coefficient and a positive total turns both sides NaN |
| Factors.AdjustPairConserves | backend/src/utils/factorCalculations.js:91-100 | a pair with positive total loses exactly cA·cB·r in total, split in proportion to the two contributions |
| Factors.AdjustPairValue | backend/src/utils/factorCalculations.js:91-100 | with a positive total and a non-zero coefficient each side loses cA·cB·r times its share of the total |
| Factors.PairStep | backend/src/utils/factorCalculations.js:80-102 | one inner step changes only factors i and j, and only their contributions |
| Factors.InnerLoop | backend/src/utils/factorCalculations.js:80-103 | the inner loop keeps every factor apart from its contribution, keeps each NaN contribution NaN, and keeps contributions finite when all were |
| Factors.OuterLoop | backend/src/utils/factorCalculations.js:77-104 | the outer loop keeps every factor apart from its contribution, keeps each NaN contribution NaN, and keeps contributions finite when all were |
| Ieee.ClampUnit | backend/src/utils/factorCalculations.js:108 | NaN stays NaN, +Infinity goes to 1 and -Infinity to 0, a finite value above 1 goes to 1 and one below 0 goes to 0, and a value already in [0, 1] is unchanged |
| Ieee.ClampUnitMonotone | backend/src/utils/factorCalculations.js:108 | clamping to [0, 1] never reverses the order of two finite numbers |
| Factors.ClampAll | backend/src/utils/factorCalculations.js:107-109 | every contribution is replaced by its clamp to [0, 1], NaN kept, and nothing else changes |
| Factors.ApplyCorrelationAdjustments | backend/src/utils/factorCalculations.js:69-112 | a missing or empty matrix returns the input unchanged and unclamped; otherwise only contributions change, each ends NaN or in [0, 1], a NaN contribution stays NaN, and contributions that were all finite stay finite |
| Factors.OuterLoopUncorrelated | backend/src/utils/factorCalculations.js:77-104 | with no coefficient for any pair the pair loops change nothing |
| Factors.UncorrelatedOnlyClamps | backend/src/utils/factorCalculations.js:69-112 | with a non-empty matrix that relates no pair, the adjustment only clamps |
| Factors.InfinitePairTurnsNaN | backend/src/utils/factorCalculations.js:87-109 | an infinite contribution correlated with a finite one turns both NaN, and the clamp keeps them NaN |
| Factors.PositivePart | backend/src/utils/factorCalculations.js:127-137 | the positive part is +Infinity or a non-negative number, and finite when every contribution is |
| Factors.NegativePart | backend/src/utils/factorCalculations.js:127-137 | the negative part is never -Infinity, non-negative when finite, and finite when every contribution is |
| Factors.FinalProbability | backend/src/utils/factorCalculations.js:121-152 | an empty list returns the base probability; any other list gives NaN or a result in [0, 1], and a list of finite contributions a result in [0, 1] |
| Factors.NegativePartNaN | backend/src/utils/factorCalculations.js:130-137 | the negative part is NaN exactly when some contribution is NaN |
| Factors.PositivePartInfinite | backend/src/utils/factorCalculations.js:130-137 | the positive part is +Infinity exactly when some contribution is +Infinity |
| Factors.NegativePartInfinite | backend/src/utils/factorCalculations.js:130-137 | without NaN contributions, the negative part is +Infinity exactly when some contribution is -Infinity, and finite otherwise |
| Factors.NeutralParts | backend/src/utils/factorCalculations.js:130-137 | contributions of exactly 0.5 add nothing to either part |
| Factors.FinalProbabilityNeutral | backend/src/utils/factorCalculations.js:121-152 | when every contribution is 0.5 the result is the base probability |
| Factors.NaNHidesShortfalls | backend/src/utils/factorCalculations.js:121-152 | a NaN contribution makes the negative part NaN, so no shortfall is subtracted: without +Infinity the result lies in [0, 1] and is at least the base |
| Factors.InfiniteContributionSaturates | backend/src/utils/factorCalculations.js:121-152 | for a base below 1, a +Infinity contribution with no NaN or -Infinity beside it gives exactly 1 |
| Factors.OpposingInfinitiesGiveNaN | backend/src/utils/factorCalculations.js:121-152 | for a base inside (0, 1), +Infinity and -Infinity contributions together, without NaN, give NaN |
| Factors.PartsMonotone | backend/src/utils/factorCalculations.js:130-137 | raising finite contributions pointwise never lowers the positive part nor raises the negative part, both staying finite |
| Factors.FinalProbabilityMonotone | backend/src/utils/factorCalculations.js:121-152 | for a base in [0, 1], raising finite contributions pointwise never lowers the final probability, which stays in [0, 1] |
| Factors.ShiftedValue | backend/src/utils/factorCalculations.js:140-148 | applying both parts moves the base up by (1 - base)·pos and down by base·neg |
| Factors.Spread | backend/src/utils/factorCalculations.js:180-181 | a value's squared distance from 0.5 is NaN exactly for a NaN value, +Infinity exactly for an infinite one, never -Infinity and non-negative when finite; a value that is not a number counts as 0.5 |
| Factors.VarianceTotal | backend/src/utils/factorCalculations.js:176-182 | the variance total is never -Infinity and non-negative when finite |
| Factors.Confidence | backend/src/utils/factorCalculations.js:161-191 | no factors give 0, and any other result is NaN or lies in [0, 1] |
| Factors.ConfidenceNaN | backend/src/utils/factorCalculations.js:161-191 | the confidence is NaN exactly when some normalised value is NaN |
| Factors.VarianceTotalInfinite | backend/src/utils/factorCalculations.js:176-182 | without NaN values, the variance total is +Infinity exactly when some normalised value is infinite |
| Factors.InfiniteValueSaturatesConfidence | backend/src/utils/factorCalculations.js:161-191 | an infinite normalised value, with no NaN one, gives a confidence of exactly 1 |
| Factors.WeightTotalBound | backend/src/utils/factorCalculations.js:177 | weights in [0, 10] total at most 10 per factor |
| Factors.VarianceTotalBound | backend/src/utils/factorCalculations.js:176-185 | normalised values in [0, 1] give at most 0.25 variance per factor |
| Factors.ConfidenceNeedsNoClamp | backend/src/utils/factorCalculations.js:171-190 | with valid weights, values in [0, 1] and no more factors than the sport has, the raw confidence already lies in [0, 1], so the clamp changes nothing |
| Factors.ConfidenceInterval | backend/src/utils/factorCalculations.js:201-220 | for p and confidence in [0, 1], 0 <= lower <= p <= upper <= 1; for finite p and confidence both bounds are finite and the width is at most twice z times (1 - confidence)/4; a NaN probability or confidence gives NaN bounds |
| RealMath.ZScore | backend/src/utils/factorCalculations.js:207-213 | the table gives 1.645 for the 90 per cent level, 1.96 for 95 and 2.576 for 99, and every other level falls back to 1.96, so the z-score lies in [1.645, 2.576] |
| Factors.FullConfidenceInterval | backend/src/utils/factorCalculations.js:201-220 | full confidence collapses the interval onto the probability |
| Factors.Score | backend/src/utils/factorCalculations.js:271-287 | the scored outcome keeps the adjusted factors; probability and confidence are each NaN or in [0, 1]; the interval lies around the probability in [0, 1] when both are in [0, 1] and is NaN when either is NaN; all-finite contributions give a probability in [0, 1] |
| Factors.ProcessFactor | backend/src/utils/factorCalculations.js:230-288 | no inputs or no definitions give {0.5, 0, [], [0.25, 0.75]}; otherwise the factors are the inputs with known keys in order; probability and confidence are each NaN or in [0, 1]; when both are in [0, 1] the interval lies in [0, 1] around the probability, and when either is NaN both bounds are NaN; inputs whose contributions are all finite give a probability in [0, 1] |
| Factors.EqualBoundsSaturate | backend/src/utils/factorCalculations.js:12-288 | one scale factor with equal bounds answered above them, with positive weight and impact and no matrix, gives probability 1, confidence 1 and the interval [1, 1] |
| Factors.KeyInjective | backend/src/utils/factorCalculations.js:307-311 | for keys without '-' the joined key "A-B" determines both keys |
| Factors.WriteBothKeepsSymmetric | backend/src/utils/factorCalculations.js:307-312 | writing a coefficient under both "A-B" and "B-A" keeps a symmetric matrix symmetric |
| Factors.AddCorrelationsSymmetric | backend/src/utils/factorCalculations.js:306-313 | entering one factor's correlations keeps the matrix symmetric |
| Factors.GenerateCorrelationMatrixSymmetric | backend/src/utils/factorCalculations.js:296-318 | for keys without '-' the generated matrix gives "A-B" and "B-A" the same coefficient |
| Factors.DashedKeysCollide | backend/src/utils/factorCalculations.js:304-315 | with a '-' inside a key two different pairs share one key, and the two directions of a pair end with different coefficients |
| Factors.AddCorrelations | backend/src/utils/factorCalculations.js:306-313 | entering one factor's correlations keeps every earlier key, adds both directions of each pair, and adds no other key |
| Factors.AddCorrelationsValues | backend/src/utils/factorCalculations.js:306-313 | entering one factor's correlations leaves every key its pairs do not write with its old value, and every key they write holds the coefficient of a pair that writes it |
| Factors.GenerateCorrelationMatrix | backend/src/utils/factorCalculations.js:296-318 | both directions of every stored correlation are keys of the matrix, and every key of the matrix was written by some definition's correlation |
| Factors.MatrixValues | backend/src/utils/factorCalculations.js:296-318 | every entry of the matrix holds the coefficient of a stored correlation that writes its key, in one direction or the other |
| Factors.SoleWriterHolds | backend/src/utils/factorCalculations.js:296-318 | a key that exactly one stored correlation writes holds that correlation's coefficient, whichever direction it names |
| FactorRecord.NewFactor | backend/src/models/factorModel.js:104-134 | a new factor meets the schema bounds, applies to 'all' sports, is a scale input, and has the default weight 5 and historical impact 0.5 |
| FactorRecord.GetUserWeight | backend/src/models/factorModel.js:235-238 | the stored weight for the user, else the statistical weight; a valid factor gives a weight in [0, 10] |
| FactorRecord.SetUserWeight | backend/src/models/factorModel.js:243-253 | only the user-weight map changes, it gains exactly the user's key, and a valid weight keeps the factor valid |
| FactorRecord.SetThenGetUserWeight | backend/src/models/factorModel.js:235-253 | after setting, the user reads back the new weight and every other user reads what they read before |
| FactorRecord.FindBySport | backend/src/models/factorModel.js:258-265 | exactly the factors whose sports list contains 'all' or the requested sport are selected |
| FactorRecord.FindBySportKeepsUniversal | backend/src/models/factorModel.js:258-265 | a factor for 'all' sports is found for every sport |
| TeamPerformance.FindIndex | backend/src/models/teamPerformanceModel.js:122 | the index of the first entry with the name, or -1 exactly when there is none |
| TeamPerformance.GetMetric | backend/src/models/teamPerformanceModel.js:104-106 | the first entry with the given name, or none exactly when no entry has it |
| TeamPerformance.UpdateMetric | backend/src/models/teamPerformanceModel.js:10-140 | a name already present has its first entry's value, sample size, baseline, league average and time overwritten in place and nothing else changes; a new name is appended once, trimmed as the schema stores it |
| TeamPerformance.UpdateThenGet | backend/src/models/teamPerformanceModel.js:104-140 | after an update under a trimmed name, looking the metric up finds exactly the values written; every name other than the given one and its trimmed form finds what it found before |
| TeamPerformance.UntrimmedNameAppends | backend/src/models/teamPerformanceModel.js:10-140 | over trimmed stored names, a name with white space at an end is never found: each update under it appends a trimmed entry, and looking it up afterwards still finds nothing |
| TeamPerformance.UpdateKeepsNamesTrimmed | backend/src/models/teamPerformanceModel.js:10-140 | an update keeps every stored name trimmed |
| TeamPerformance.FindIndexSameNames | backend/src/models/teamPerformanceModel.js:122 | extending a list with other names, or rewriting fields other than names, does not move the first index of a name |
| TeamPerformance.UpdateKeepsNames | backend/src/models/teamPerformanceModel.js:121-140 | an update keeps every existing name in place and grows the list by one exactly when the name was new |
| TeamPerformance.AddHistoricalDataPoint | backend/src/models/teamPerformanceModel.js:111-116 | one point with the given date and metrics is appended and every earlier point is kept |
| TeamPerformance.HistoricalData | backend/src/models/teamPerformanceModel.js:172-182 | an observation is returned exactly when a stored point lies inside the given inclusive bounds and records the metric |
| TeamPerformance.HistoricalDataKeepsOrder | backend/src/models/teamPerformanceModel.js:172-182 | filtering two parts of a history in turn gives the filter of the whole, so the stored order is kept |
| TeamPerformance.UnboundedKeepsEverything | backend/src/models/teamPerformanceModel.js:172-182 | without bounds, a history that always records the metric comes back whole, one observation per point |
| UserRecord.UpdateStreak | backend/src/models/userModel.js:231-255 | a win restarts a losing run at 1 or extends a winning one and clears the loss counter; a loss restarts at -1 or extends and bumps the counter; worst <= current <= best afterwards, best never falls, worst never rises, and the loss counter keeps matching the losing run |
| UserRecord.RunLength | backend/src/models/userModel.js:231-246 | a final run is never longer than the history |
| UserRecord.StreakIsFinalRun | backend/src/models/userModel.js:231-246 | from a fresh record the current streak is the signed length of the final run, and the loss counter is the length of the final losing run |
| UserRecord.BestStreakIsRecord | backend/src/models/userModel.js:248-254 | the best streak is at least, and the worst streak at most, the streak after every prefix of the history |
| UserRecord.RecordsAreReached | backend/src/models/userModel.js:248-254 | the best and worst streaks are each the streak after some prefix of the history |
| UserRecord.LossRunAlwaysTracked | backend/src/models/userModel.js:231-246 | from a fresh record the loss counter always equals the length of the current losing run |
| UserRecord.UpdatePerformanceStats | backend/src/models/userModel.js:212-218 | with no settled bets nothing changes; otherwise the win rate is the won share in percent, in [0, 100], and the ROI times the initial bankroll is 100 times the profit, non-finite when the initial bankroll is missing or 0 |
| UserRecord.AddBankrollHistoryEntry | backend/src/models/userModel.js:221-228 | the log grows by exactly the new entry at its end and nothing else changes |
| UserRecord.SaveInitialBankroll | backend/src/models/userModel.js:190-195 | the initial bankroll is set to the bankroll only when the bankroll changed and none is set yet; once set it never changes |
| BetFlow.DailyLoss | backend/src/controllers/betController.js:61-62 | today's loss, summed from the sizes of the negative results, is never negative |
| BetFlow.DailyWin | backend/src/controllers/betController.js:63-64 | today's winnings, summed from the positive results, are never negative |
| BetFlow.DailyNet | backend/src/controllers/betController.js:61-64 | the day's winnings minus its losses equal the sum of all of today's results |
| BetFlow.RiskGate | backend/src/controllers/betController.js:29-78 | the open-bet limit is hit exactly when the count of open bets reaches the maximum; otherwise the stop loss fires exactly when today's loss plus the numeric stake exceeds the allowed share of the bankroll; otherwise the stop win fires exactly when today's winnings exceed their share; a bet let through keeps its stake within what the stop loss leaves |
| BetFlow.SmallerStakePasses | backend/src/controllers/betController.js:67-78 | a stake that passes the gates still passes when lowered |
| BetFlow.KellyOddsAreNumeric | backend/src/controllers/betController.js:40-45 | odds the Kelly calculation accepts coerce to a finite number, which is what the bet stores |
| BetFlow.NewBet | backend/src/controllers/betController.js:40-103 | the created bet is pending with result 0, carries the Kelly figures computed with the user's fraction multiplier and cap and the request's own stake, probability, type and confidence, and stores as potential profit the American-odds profit of the stake, absent exactly when the odds are 0 |
| BetFlow.CreateBet | backend/src/controllers/betController.js:7-109 | a request stopped by a risk gate is refused with that gate's reason; one that passes is refused by the bet schema exactly when the bet it builds lies outside the schema's bounds, and otherwise the bet described above is created, within those bounds |
| BetFlow.NegativeStakeRejected | backend/src/controllers/betController.js:67-109 | a negative stake that clears the gates is refused by the schema's minimum stake of 0, so nothing is created |
| BetFlow.ValidRequestCreated | backend/src/controllers/betController.js:7-109 | a request that clears the gates, with odds above 1 and every field inside the validators' and the user schema's bounds, creates its bet |
| BetFlow.NewBetWithinSchema | backend/src/models/betModel.js:23-113 | with a probability in [0, 1], confidence in [1, 10], a non-negative stake, a fraction multiplier in [0, 1] and decimal odds above 1, the created bet meets every bound of the bet schema |
| BetFlow.DecimalOddsProfitOverwritten | backend/src/models/betModel.js:119-128 | the controller's risk metrics give a profit of 150 for 100 staked at decimal odds 2.5, yet the stored potential profit is 2.5 because the save rule reads the odds as American |
| BetFlow.SettleUser | backend/src/controllers/betController.js:178-195 | settling with a numeric result adds it to the bankroll and to the total profit, raises exactly the counter of the new status by one (none for pending or cancelled), makes the total equal the sum of the three counters, and leaves the streaks and every other field untouched |
| BetFlow.SettleBet | backend/src/controllers/betController.js:158-204 | a request without a result fails, because the NaN bankroll cannot be saved; a settlement fails exactly when it leaves some bet won, lost or pushed and the initial bankroll is missing, or is 0 with a total profit of 0, because `updatePerformanceStats` then stores a NaN ROI (userModel.js:212-218) that cannot be saved; on failure neither the user nor the bet changes. Otherwise the bet takes the new status and result whatever it held before, the user is settled as above with a ROI that is finite unless the initial bankroll is 0, and the pre-save rule (userModel.js:190-195) makes the new bankroll the initial one exactly when the result is non-zero and none is set |
| BetFlow.SettlementHistory | backend/src/controllers/betController.js:172-195 | after any run of settlements each counter has grown by the number of settlements with its status and the bankroll and total profit by the sum of their results, the current streak is unchanged, and the total agrees with the counters |
| BetFlow.StatusCountsPartition | backend/src/models/betModel.js:84-88 | every settlement carries exactly one of the five statuses, so the per-status counts add up to the number of settlements |
| BetFlow.SettlingTwiceCountsTwice | backend/src/controllers/betController.js:172-197 | the previous status is not consulted: for a user with an initial bankroll, settling the same bet as won twice succeeds both times and raises the win count by two; a user without an initial bankroll cannot settle a win at all |
| BetFlow.AnalyseBet | backend/src/controllers/betController.js:302-310 | the analysis is added exactly for bets that are no longer pending; it holds the bet's ROI, the result as a share of the potential profit (present exactly when that profit is present and non-zero), and the edge with its size kept and its sign positive exactly when a positive edge won or a negative edge did not |
| Validation.Respond | backend/src/middleware/validationMiddleware.js:65-72 | a validator passes the request on exactly when it collected no error, and otherwise rejects it with the errors as collected |
| Validation.BetErrorRank | backend/src/middleware/validationMiddleware.js:19-63 | every bet-creation error has a position among the checks, and the check in that position reports it |
| Validation.BetErrorsUpTo | backend/src/middleware/validationMiddleware.js:19-63 | after the first k checks the error list holds exactly the failing ones among them, in check order |
| Validation.BetCreationErrors | backend/src/middleware/validationMiddleware.js:17-63 | the error list of a bet-creation request holds exactly the checks that fail, each once and in the order the validator runs them |
| Validation.ValidateBetCreation | backend/src/middleware/validationMiddleware.js:4-73 | a bet-creation request reaches the controller exactly when no check fails, and is otherwise rejected with the full error list |
| Validation.ZeroProbabilityReportedTwice | backend/src/middleware/validationMiddleware.js:25-32 | a probability of 0 is rejected and reported twice, as missing (0 is falsy) and as out of range |
| Validation.NumericOddsAreDecimal | backend/src/middleware/validationMiddleware.js:35-42 | odds given as a number fail the odds check exactly when they are at most 1, so they are judged as decimal odds |
| Validation.NonNumericOddsPassOddsCheck | backend/src/middleware/validationMiddleware.js:35-45 | odds given as anything but a number never fail the odds-value check |
| Validation.AcceptedNumericOddsSupportKelly | backend/src/middleware/validationMiddleware.js:35-42 | numeric odds in a request that passes are above 1, so the Kelly calculation can use them |
| Validation.NonNumericProbabilityPasses | backend/src/middleware/validationMiddleware.js:25-32 | a probability given as non-empty text that is not a number escapes both probability checks, because every comparison with NaN is false |
| Validation.AbcIsNotANumber | backend/src/middleware/validationMiddleware.js:30 | the text "abc" coerces to no number |
| Validation.BetUpdateErrors | backend/src/middleware/validationMiddleware.js:78-89 | the update error list holds exactly the failing checks (a status outside the five, a present result that is not a number), in that order |
| Validation.ValidateBetUpdate | backend/src/middleware/validationMiddleware.js:76-99 | an update passes exactly when its status is one of the five and its result is absent or a number |
| Validation.RiskErrorRank | backend/src/middleware/validationMiddleware.js:114-154 | every risk-settings error has a position among the checks, and the check in that position reports it |
| Validation.RiskErrorsUpTo | backend/src/middleware/validationMiddleware.js:114-154 | after the first k risk checks the error list holds exactly the failing ones among them, in check order |
| Validation.RiskSettingsErrors | backend/src/middleware/validationMiddleware.js:112-154 | the risk-settings error list holds exactly the defined fields that are out of bounds, in field order |
| Validation.ValidateRiskSettings | backend/src/middleware/validationMiddleware.js:102-164 | a risk-settings update passes exactly when no defined field is out of bounds |
| Validation.EmptyRiskUpdatePasses | backend/src/middleware/validationMiddleware.js:115-153 | fields left out are never checked, so an empty update passes |
| Validation.AcceptedRiskSettingsInBounds | backend/src/middleware/validationMiddleware.js:114-154 | in an accepted update the numeric fractions lie in [0, 1], the stop win is not negative, and the two counts, when present, are whole numbers of at least 1 |
| HistoricalData.Scored | backend/src/models/historicalDataModel.js:107-110 | a prediction that carries a probability keeps it and scores 1 exactly when its outcome is 'win'; a loss, a draw and a missing outcome score 0 |
| HistoricalData.ErrorSum | backend/src/models/historicalDataModel.js:107-111 | the summed squared error of a record is NaN exactly when some prediction carries no probability, since one undefined term makes the whole sum NaN |
| HistoricalData.ErrorSumBound | backend/src/models/historicalDataModel.js:107-111 | with probabilities in [0, 1] each squared error lies in [0, 1], so the sum lies between 0 and the number of predictions |
| HistoricalData.BrierScore | backend/src/models/historicalDataModel.js:106-115 | the Brier score of a record is NaN exactly when it holds no predictions (0/0) or some prediction carries no probability, and lies in [0, 1] when the probabilities do |
| HistoricalData.ErrorSumAgrees | backend/src/models/historicalDataModel.js:106-115 | when every prediction carries a probability, the record's summed squared error equals the calibration module's total of squared errors over the same predictions, an independent definition |
| HistoricalData.BrierScoresAgree | backend/src/models/historicalDataModel.js:106-115 | when every prediction carries a probability, the record's Brier score is the calibration report's Brier score of the same predictions, except that an empty list gives NaN here and 0 there |
| HistoricalData.BinKey | backend/src/models/historicalDataModel.js:121 | a prediction's bin key is the lower edge of its tenth: never above the probability, and in [0, 1] for a probability in [0, 1] |
| HistoricalData.CertaintyHasOwnKey | backend/src/models/historicalDataModel.js:121 | a probability of exactly 1 gets the key 1, which no other probability in [0, 1] gets |
| HistoricalData.KeyIndex | backend/src/models/historicalDataModel.js:122 | looking up a bin finds one with the key asked for, and finds none exactly when no bin has that key |
| HistoricalData.AddPredictionKeeps | backend/src/models/historicalDataModel.js:120-129 | counting one prediction keeps the bins distinct and non-empty, with no more wins than predictions, and raises the total count by one |
| HistoricalData.AddPredictionKeys | backend/src/models/historicalDataModel.js:121-124 | counting one prediction adds its own key to the keys present and no other |
| HistoricalData.TalliesSound | backend/src/models/historicalDataModel.js:117-129 | grouping counts every prediction exactly once, in bins with distinct keys, and has a bin for exactly the keys some prediction falls under |
| HistoricalData.EntryOrder | backend/src/models/historicalDataModel.js:131 | the entries are listed in the order objects list their keys (the keys 0 and 1 first, then the rest as created), and only bins that exist are listed |
| HistoricalData.EntryOrderCounts | backend/src/models/historicalDataModel.js:131 | reordering the bins that way loses no prediction and counts none twice |
| HistoricalData.ToEntry | backend/src/models/historicalDataModel.js:131-135 | an entry reads its key back as its predicted probability, keeps the bin's count, and has a win rate in [0, 1] |
| HistoricalData.CalibrationTable | backend/src/models/historicalDataModel.js:117-136 | every calibration entry counts at least one prediction and has a win rate in [0, 1] |
| HistoricalData.NaNEntryIffMissing | backend/src/models/historicalDataModel.js:117-135 | predictions without a probability are binned under the key "NaN": the table has an entry with a NaN probability exactly when some prediction lacks one |
| HistoricalData.CalibrationCountsSum | backend/src/models/historicalDataModel.js:117-136 | the counts of the calibration entries add up to the number of predictions |
| HistoricalData.CertaintyListed | backend/src/models/historicalDataModel.js:121-135 | when some prediction is certain, the table has an entry for probability 1 |
| HistoricalData.CorrectCountIsFilter | backend/src/controllers/historicalDataController.js:113-115 | the count of correct predictions is the number of positions the filter keeps |
| HistoricalData.ExpectedOutcome | backend/src/controllers/historicalDataController.js:114 | 'win' is the right call exactly after a home win; after anything else (or no result) 'loss' is, and 'draw' never is |
| HistoricalData.AccuracyFold | backend/src/controllers/historicalDataController.js:108-117 | across the records never more predictions are counted correct than are counted |
| HistoricalData.BrierSumBound | backend/src/controllers/historicalDataController.js:108-111 | with probabilities in [0, 1] the summed Brier score, when it is a number, lies between 0 and the number of records that carry predictions |
| HistoricalData.BrierSumNaN | backend/src/controllers/historicalDataController.js:108-111 | the summed Brier score is NaN exactly when some record holds a prediction without a probability |
| HistoricalData.PredictionAccuracy | backend/src/controllers/historicalDataController.js:88-126 | the averaged Brier score is NaN exactly when there are no records or some prediction carries no probability, and lies in [0, 1] when the probabilities do; the accuracy is undefined exactly when no prediction was counted, and otherwise lies in [0, 1] |
| HistoricalData.OnlyEmptyRecords | backend/src/controllers/historicalDataController.js:108-120 | records without predictions still count in the Brier divisor, so a list of only such records reports a Brier score of 0 and no accuracy |
| HistoricalData.FoldSkipsEmpty | backend/src/controllers/historicalDataController.js:109 | a record without predictions changes none of the running totals |
| HistoricalData.NeutralForecastNeverCorrect | backend/src/controllers/historicalDataController.js:149-150 | a forecast of exactly 0.5 is never right, and after a draw no forecast is |
| HistoricalData.Tally3 | backend/src/controllers/historicalDataController.js:146-170 | every record adds one to each model's total, since each forecast object is always present, and the correct count never exceeds it |
| HistoricalData.TallyCountsRightForecasts | backend/src/controllers/historicalDataController.js:146-170 | a model's correct count is the number of records whose forecast favoured the side that won, and its total is the number of records |
| HistoricalData.ModelPerformance | backend/src/controllers/historicalDataController.js:129-177 | a model's line counts every record in its total and the rightly forecast ones as correct; the accuracy is correct over total, 0 when there are no records, and lies in [0, 1] |
| Calibration.SquaredErrorBound | backend/src/controllers/calibrationController.js:9-10 | one prediction's squared error lies in [0, 1] when its probability does |
| Calibration.TotalSquaredErrorBound | backend/src/controllers/calibrationController.js:8-11 | the summed squared error of n predictions with probabilities in [0, 1] lies in [0, n] |
| Calibration.BrierScore | backend/src/controllers/calibrationController.js:5-14 | the Brier score is 0 for no predictions and lies in [0, 1] whenever the probabilities do |
| Calibration.PerfectPredictions | backend/src/controllers/calibrationController.js:5-14 | forecasting every outcome with certainty scores 0 |
| Calibration.BinIndex | backend/src/controllers/calibrationController.js:25 | every prediction gets one of the bins 0 .. numBins-1 |
| Calibration.BinIndexRange | backend/src/controllers/calibrationController.js:25 | below the last bin, bin k holds exactly the scaled probabilities in [k, k+1); the last bin holds everything from numBins-1 up |
| Calibration.CertaintyInLastBin | backend/src/controllers/calibrationController.js:25 | a probability of exactly 1 is folded into the last bin |
| Calibration.InBin | backend/src/controllers/calibrationController.js:24-29 | the predictions routed to bin k all have bin index k and come from the input |
| Calibration.Point | backend/src/controllers/calibrationController.js:31-36 | a curve point counts exactly the predictions routed to its bin |
| Calibration.CalibrationCurve | backend/src/controllers/calibrationController.js:17-37 | the curve has one point per bin, the point of bin k starts at k/numBins, and an empty bin reports a mean forecast and win rate of 0 |
| Calibration.BinsPartition | backend/src/controllers/calibrationController.js:24-29 | the bins partition the predictions: any quantity summed bin by bin gives its total over all predictions |
| Calibration.CountsSumToPredictions | backend/src/controllers/calibrationController.js:17-37 | the counts of the curve add up to the number of predictions |
| Calibration.MeanInsideBin | backend/src/controllers/calibrationController.js:25-34 | a non-empty bin's mean forecast lies inside the bin's range (the last bin reaching up to 1) and its win rate lies in [0, 1] |
| Calibration.InsideBin | backend/src/controllers/calibrationController.js:25 | a probability in [0, 1] routed to bin k lies in that bin's range |
| Calibration.AllInOneBin | backend/src/controllers/calibrationController.js:24-29 | when every prediction has the same bin index, that bin receives all of them in order and every other bin none |
| Calibration.SingleBinCurve | backend/src/controllers/calibrationController.js:17-37 | when every prediction lands in bin b, the point of b averages all of them and every other point is empty |
| Calibration.NinetyPercentExample | backend/src/controllers/calibrationController.js:17-55 | eight wins and two losses all forecast at 0.9 fill bin 9 of ten with mean forecast 0.9, win rate 0.8 and an overconfidence of 1, and leave every other bin empty |
| Calibration.OverTerm | backend/src/controllers/calibrationController.js:45-47 | a bin's overconfidence contribution is never negative |
| Calibration.UnderTerm | backend/src/controllers/calibrationController.js:45-50 | a bin's underconfidence contribution is never negative |
| Calibration.OneSidePerBin | backend/src/controllers/calibrationController.js:44-51 | no bin feeds both totals, and a bin's over minus under contribution is its count-weighted gap between forecast and win rate |
| Calibration.ConfidenceMetrics | backend/src/controllers/calibrationController.js:40-55 | overconfidence and underconfidence are never negative |
| Calibration.OverMinusUnder | backend/src/controllers/calibrationController.js:40-55 | overconfidence minus underconfidence is the sum of the count-weighted gaps of the bins |
| Calibration.PointGap | backend/src/controllers/calibrationController.js:31-34 | a point's count-weighted gap equals its bin's summed forecasts minus its wins |
| Calibration.NetConfidenceIsExcessPrediction | backend/src/controllers/calibrationController.js:17-55 | over a curve, overconfidence minus underconfidence equals the sum of all forecasts minus the number of wins |
| Calibration.ConfidenceRecommendations | backend/src/controllers/calibrationController.js:61-79 | an overconfidence entry appears exactly when overconfidence exceeds 0.1 and is high exactly above 0.2, likewise for underconfidence, and when both appear overconfidence comes first |
| Calibration.RangeRecommendations | backend/src/controllers/calibrationController.js:82-91 | a per-bin entry is made exactly for the bins with more than five predictions whose forecast and win rate differ by more than 0.15 |
| Calibration.RangeRecommendationsAscending | backend/src/controllers/calibrationController.js:82-91 | on a curve listed in ascending bin order the per-bin entries come in ascending bin order, each for a bin of the curve |
| Calibration.GenerateRecommendations | backend/src/controllers/calibrationController.js:58-94 | the recommendations are the confidence entries followed by the per-bin entries, nothing else |
| Calibration.CurveBinsAscending | backend/src/controllers/calibrationController.js:31-32 | the curve lists its bins in ascending order |
| Calibration.CurveRecommendationsAscending | backend/src/controllers/calibrationController.js:58-94 | the recommendations built from a curve list the calibration-wide entries first and then the per-bin entries in ascending bin order |
| Regression.CalculateRegression | backend/src/utils/regressionCalculations.js:13-16 | the expectation moves from the current value towards the baseline by the factor's share of the gap: factor 0 keeps the current value, factor 1 gives the baseline |
| Regression.RegressionBetween | backend/src/utils/regressionCalculations.js:13-16 | for a factor in [0, 1] the expectation lies between the current value and the baseline |
| Regression.Reliability | backend/src/utils/regressionCalculations.js:52-56 | reliability n/(n+s) is not a finite number exactly when n + s is 0, is 0 for no observations, 0.5 at the stabilization point, and lies in [0, 1) for n >= 0 and s > 0 |
| Regression.ReliabilityMonotone | backend/src/utils/regressionCalculations.js:52-56 | more observations never make a metric less reliable |
| Regression.EstimateTrueTalent | backend/src/utils/regressionCalculations.js:66-69 | the estimate moves from the population mean towards the observation by the reliability's share: reliability 1 gives the observation, 0 the mean |
| Regression.TrueTalentBetween | backend/src/utils/regressionCalculations.js:66-69 | for a reliability in [0, 1] the estimate lies between the observation and the population mean |
| Regression.RegressionIsTalentBlend | backend/src/utils/regressionCalculations.js:13-69 | regressing with factor f is the true-talent blend with reliability 1 - f |
| Regression.MetricOrFallback | backend/src/utils/regressionCalculations.js:126-128 | a metric is read from the sport's table if listed there, else from that table's catch-all entry, else from the default catch-all |
| Regression.FactorTableValid | backend/src/utils/regressionCalculations.js:81-120 | the default table has a catch-all entry of factor 0.65 and stabilization point 40, and every listed factor lies in [0, 1] with a positive stabilization point |
| Regression.GetSportSpecificRegressionFactors | backend/src/utils/regressionCalculations.js:78-129 | the lookup always yields a factor in [0, 1] with a positive stabilization point, and a metric listed for a known sport yields its own entry |
| Regression.UnknownSportUsesDefault | backend/src/utils/regressionCalculations.js:123 | a sport without a table of its own is read from the default table |
| Regression.UnknownMetricFallsBack | backend/src/utils/regressionCalculations.js:126-128 | a metric no table lists gets factor 0.65 and stabilization point 40 whatever the sport |
| Regression.StdDevTablePositive | backend/src/utils/regressionCalculations.js:224-261 | every listed standard deviation is positive and the default table has a catch-all |
| Regression.TableStdDev | backend/src/utils/regressionCalculations.js:264-265 | the looked-up standard deviation is positive and is the listed value for a listed sport and metric |
| Regression.GetMetricStandardDeviation | backend/src/utils/regressionCalculations.js:220-276 | the deviation never exceeds the table value; for a metric named with "Percentage" and a given average it is at most 80% of the distance from the average to the nearer of 0 and 1, otherwise it is the table value; it is positive for an average strictly between 0 and 1 |
| Regression.RegressionInterval | backend/src/utils/regressionCalculations.js:27-43 | the interval is finite exactly when the sample size is positive, is centred on the expected value, and contains it when the deviation is not negative |
| Regression.Divide | backend/src/utils/regressionCalculations.js:181 | a quotient by a non-zero number is finite and exact; by zero it is NaN exactly when the numerator is 0 too, and otherwise the infinity of the numerator's sign |
| Regression.AdjustProbability | backend/src/utils/regressionCalculations.js:185-187 | the adjusted probability is undefined exactly for a NaN deviation; otherwise, for a probability in [0, 1], it moves by at most half the distance to the nearer of 0 and 1, stays in [0, 1], and moves down for a positive deviation and up for a negative one |
| Regression.Status | backend/src/utils/regressionCalculations.js:190-191 | the status is overperforming exactly above the baseline, underperforming exactly below it, and average exactly at it |
| Regression.CalculateRegressionAdjustment | backend/src/utils/regressionCalculations.js:144-210 | the result uses the looked-up factor, its expectation lies between the current value and the baseline, and with a positive deviation and a probability in [0, 1] the adjusted probability stays in [0, 1], within half the distance to the nearer bound, lowered when overperforming and raised when underperforming |
| Regression.DeviationSign | backend/src/utils/regressionCalculations.js:166-181 | with a positive deviation scale, overperformance gives a non-negative deviation count and underperformance a non-positive one |
| Regression.RecencySeverity | backend/src/utils/regressionCalculations.js:303 | a recency severity is above 0.75 and at most 1 |
| Regression.RecencyCheck | backend/src/utils/regressionCalculations.js:298-305 | recency bias is reported, once, exactly when the deviation count exceeds 1.5 in size |
| Regression.HotHandCheck | backend/src/utils/regressionCalculations.js:308-315 | the hot-hand fallacy is reported, once, exactly when overperforming on fewer observations than 30% of the stabilization point |
| Regression.GamblersCheck | backend/src/utils/regressionCalculations.js:318-325 | the gambler's fallacy is reported, once and with severity 0.7, exactly when underperforming by more than 0.8 of the uncapped table deviation |
| Regression.SmallSampleCheck | backend/src/utils/regressionCalculations.js:328-335 | the small-sample warning is reported, once, exactly when there are fewer observations than 20% of the stabilization point |
| Regression.IdentifyCognitiveBiases | backend/src/utils/regressionCalculations.js:284-338 | at most four biases are reported, strictly in the order the checks run |
| Regression.RecencyReported | backend/src/utils/regressionCalculations.js:298-305 | recency bias appears among the reported biases exactly when its check fires, and then first |
| Regression.SmallSampleReported | backend/src/utils/regressionCalculations.js:328-335 | the small-sample warning appears exactly when its check fires, and then last |
| Regression.SeveritiesInRange | backend/src/utils/regressionCalculations.js:303-333 | with a sample size of at least 0 every reported severity lies in (0, 1] |
| Regression.SmallSampleImpliesHotHand | backend/src/utils/regressionCalculations.js:308-328 | an overperformance on a small sample is always also reported as a hot hand |
| RegressionUtils.ReliabilityBand | smart-sports-betting/src/utils/regressionUtils.js:34-38 | a ratio of at least 1 gets the darkest success colour, [0.5, 1) the lighter, [0.3, 0.5) and [0.1, 0.3) the two warnings, and below 0.1 the error colour |
| RegressionUtils.ReliabilityColor | smart-sports-betting/src/utils/regressionUtils.js:31-39 | the colour is the band of sample size over stabilization point; with a stabilization point of 0 it is the darkest success colour exactly for a positive sample and otherwise the error colour |
| RegressionUtils.MoreSamplesNeverLessReliable | smart-sports-betting/src/utils/regressionUtils.js:31-39 | against a positive stabilization point a larger sample never gets a less reliable colour |
| RegressionUtils.PerformanceColor | smart-sports-betting/src/utils/regressionUtils.js:66-81 | grey exactly when the difference is under 0.01 in size; otherwise success exactly when the difference goes the better way and error otherwise, in the darker shade exactly above 0.1 |
| RegressionUtils.PerformanceColorMirror | smart-sports-betting/src/utils/regressionUtils.js:66-81 | swapping current and baseline while flipping which direction is better leaves the colour unchanged |
| RegressionUtils.AdjustmentColor | smart-sports-betting/src/utils/regressionUtils.js:119-126 | the colour bands the size of the adjustment at 0.01, 0.03 and 0.05 |
| RegressionUtils.AdjustmentColorSymmetric | smart-sports-betting/src/utils/regressionUtils.js:119-126 | the adjustment colour ignores the direction of the adjustment |
| RegressionUtils.BiasSeverityColor | smart-sports-betting/src/utils/regressionUtils.js:170-175 | the colour bands the severity at 0.3, 0.5 and 0.8 |
| RegressionUtils.SeverityColorMonotone | smart-sports-betting/src/utils/regressionUtils.js:170-175 | a more severe bias never gets a milder colour |
| RegressionUtils.UpperChar | smart-sports-betting/src/utils/regressionUtils.js:157 | a lower-case ASCII letter becomes its capital and every other character is kept |
| RegressionUtils.UpperFirst | smart-sports-betting/src/utils/regressionUtils.js:157 | capitalising keeps the length, changes only the first character, and leaves the empty string alone |
| RegressionUtils.MagnitudeOf | smart-sports-betting/src/utils/regressionUtils.js:148-150 | a change is slight up to 0.03, moderate up to 0.08, and significant above |
| RegressionUtils.RegressionDescription | smart-sports-betting/src/utils/regressionUtils.js:144-163 | no adjustment is needed exactly when the probabilities are within 0.01; otherwise the advice is downward exactly for an over-performing team and upward exactly for an under-performing one, sized by the change |
| RegressionUtils.DescriptionIgnoresDirection | smart-sports-betting/src/utils/regressionUtils.js:144-163 | the description depends on the size of the change and not its direction |
| RegressionUtils.LargeCutIsSignificant | smart-sports-betting/src/utils/regressionUtils.js:148-157 | an over-performing team whose probability is cut by 0.1 is advised a downward adjustment with the word "Significant" |
| RegressionUtils.SpaceBeforeCapitals | smart-sports-betting/src/utils/regressionUtils.js:185 | inserting spaces never shortens the text, every capital ends up right after a space, and the first character is kept or preceded by a space exactly when it is a capital |
| RegressionUtils.SpacesAreTheOnlyInsertion | smart-sports-betting/src/utils/regressionUtils.js:185 | with spaces removed, the result is the input with its spaces removed: only spaces are inserted |
| RegressionUtils.FormatMetricName | smart-sports-betting/src/utils/regressionUtils.js:182-189 | the display name is empty for an empty metric and never shorter than it; a name starting in lower case starts with that letter capitalised, one starting with a capital starts with a space |
| RegressionUtils.MetricNameKeepsCharacters | smart-sports-betting/src/utils/regressionUtils.js:182-189 | apart from the inserted spaces, a name starting with a lower-case letter keeps its characters and has its first letter capitalised |
| RegressionUtils.NoCapitalsUnchanged | smart-sports-betting/src/utils/regressionUtils.js:185 | text without capitals gains no spaces |
| RegressionUtils.SpaceBeforeCapitalsAppend | smart-sports-betting/src/utils/regressionUtils.js:185 | the insertion works character by character, so it distributes over concatenation |
| RegressionUtils.CapitalisedWord | smart-sports-betting/src/utils/regressionUtils.js:185 | a capital followed by lower-case text gains exactly one space, in front of the capital |
| RegressionUtils.AxisStep | smart-sports-betting/src/utils/regressionUtils.js:235-246 | the step is positive; up to a range of 100 it divides the range into at most ten steps; it is 20 exactly above 100 and 0.01 exactly up to 0.1 |
| RegressionUtils.AxisStepMonotone | smart-sports-betting/src/utils/regressionUtils.js:235-246 | a wider range never gets a finer step |
| RegressionUtils.Least | smart-sports-betting/src/utils/regressionUtils.js:259 | the minimum is one of the values and no value is below it |
| RegressionUtils.Greatest | smart-sports-betting/src/utils/regressionUtils.js:260 | the maximum is one of the values and no value is above it |
| RegressionUtils.ChartDomain | smart-sports-betting/src/utils/regressionUtils.js:254-274 | no data gives [0, 1]; the lower end is never negative, and for percentages the upper end is at most 1; every non-negative value lies inside the domain (for percentages, every such value up to 1) |
| RegressionUtils.NegativeDataInvertsDomain | smart-sports-betting/src/utils/regressionUtils.js:263-265 | data entirely below zero gets an inverted domain: a single value of -1 gives the lower end 0 and the upper end -1 |
| StatModels.ParamsFor | backend/src/utils/statisticalModels.js:2-33 | the sport is matched case-insensitively against football, baseball, hockey and soccer, anything else reads the basketball entry, and every entry has a positive k-factor and home advantage and a default rating of 1500 |
| StatModels.ExpectedScore | backend/src/utils/statisticalModels.js:36-38 | the expectation lies strictly between 0 and 1 and is the reciprocal of 1 plus the power of ten |
| StatModels.EqualRatingsExpectHalf | backend/src/utils/statisticalModels.js:36-38 | equal ratings give an expectation of one half |
| StatModels.ExpectationsComplement | backend/src/utils/statisticalModels.js:36-38 | the two sides' expectations add up to 1 |
| StatModels.StrongerSideExpectsMore | backend/src/utils/statisticalModels.js:36-38 | the stronger side expects more than half |
| StatModels.NewEloRating | backend/src/utils/statisticalModels.js:41-43 | the rating moves by k times the surprise, so with a positive k it rises exactly when the result beats the expectation |
| StatModels.EloZeroSum | backend/src/utils/statisticalModels.js:41-43 | with complementary expectations and results and the same k, what one side gains the other loses |
| StatModels.EloRating | backend/src/utils/statisticalModels.js:46-71 | both sides get the sport's default rating, the prediction is the expectation of the side given the home advantage, which is above one half, and the sport is reported in lower case |
| StatModels.EloIgnoresTeams | backend/src/utils/statisticalModels.js:46-71 | the prediction does not depend on which teams play |
| StatModels.Poisson | backend/src/utils/statisticalModels.js:80-82 | the chance of exactly x goals is never negative for a non-negative rate |
| StatModels.WinSumNonNegative | backend/src/utils/statisticalModels.js:91-98 | the accumulated win probability is never negative for non-negative rates |
| StatModels.ScorelessNeverWins | backend/src/utils/statisticalModels.js:91-98 | a side with a scoring rate of 0 never wins |
| StatModels.PoissonProbability | backend/src/utils/statisticalModels.js:74-107 | the double loop adds, over every score i below the sport's bound (10 for goal sports, 20 otherwise) and every j below i, the chance of the score i-j; the result keeps the inputs and is never negative for non-negative rates |
| StatModels.WinningRow | backend/src/utils/statisticalModels.js:95-97 | the inner loop adds up the chances that the first side scores exactly i and the second side fewer |
| StatModels.WeightsFor | backend/src/utils/statisticalModels.js:114-131 | baseball raises the weather weight to 0.15 and lowers home advantage to 0.08, soccer raises home advantage and venue to 0.15, and every other sport keeps the default weights |
| StatModels.KnownWeightsPositive | backend/src/utils/statisticalModels.js:114-131 | every named weight of every sport is positive, so every named feature is applied |
| StatModels.RegressionProbability | backend/src/utils/statisticalModels.js:110-150 | the prediction lies in [0, 1] and equals one half plus the weighted entries of the feature object whenever that sum is already in [0, 1]; it reports the sport's weights and the sport in lower case |
| StatModels.SameObjectSameSum | backend/src/utils/statisticalModels.js:136-140 | two entry lists of the same object, in whatever order, give the same weighted sum |
| StatModels.RegressionReadsObject | backend/src/utils/statisticalModels.js:110-150 | two feature lists that give every key the same value predict the same, so only the object they build matters |
| StatModels.RepeatedKeyLastValue | backend/src/utils/statisticalModels.js:136-140 | the features recentForm 0.5 then recentForm -0.5 count once with the last value, giving 0.5 + 0.3 · (-0.5) = 0.35 for basketball |
| StatModels.UnweightedKeyIgnored | backend/src/utils/statisticalModels.js:136-140 | setting a feature the weight table does not name, new or already present, leaves the prediction unchanged |
| StatModels.UnknownFeaturesIgnored | backend/src/utils/statisticalModels.js:136-140 | a feature the weight table does not name changes nothing |
| StatModels.WeightedSumAppend | backend/src/utils/statisticalModels.js:136-140 | the weighted sum of two lists of features is the sum of their weighted sums |
| StatModels.WeightedSum | backend/src/utils/statisticalModels.js:135-140 | over an object's entries, features whose weights are all falsy add nothing, and features whose weighted terms are all non-negative give a non-negative sum |
| StatModels.NoFeaturesGiveHalf | backend/src/utils/statisticalModels.js:133-143 | with no features the prediction is one half |
| Js.Get | backend/src/controllers/probabilityController.js:32 | a key is found exactly when some pair has it, and the value found is that of the last pair with the key, as a later key overwrites an earlier one |
| Js.Put | backend/src/controllers/probabilityController.js:7 | after `o[key] = value` the key reads the new value, every other key reads as before, a present key keeps its place, a new key is appended, and distinct keys stay distinct |
| Js.Entries | backend/src/controllers/probabilityController.js:7 | the object built from key/value pairs has each key once and reads every key as the pairs do, that is with its last value |
| Js.EntriesOfDistinct | backend/src/controllers/probabilityController.js:7 | pairs whose keys are already distinct are the object's entry list unchanged |
| ProbabilityBlend.Blend | backend/src/controllers/probabilityController.js:41-56 | with a Poisson prediction the components are weighted 0.4, 0.4 and 0.2; without one the other two are averaged; the blend lies in [0, 1] when its components do |
| ProbabilityBlend.PoissonComponent | backend/src/controllers/probabilityController.js:31-38 | the Poisson model is consulted exactly when both goal rates are given and non-zero |
| ProbabilityBlend.CalculateProbability | backend/src/controllers/probabilityController.js:20-73 | the answer lies in [0, 1], reports the regression, Elo and Poisson components it used, and equals the blend plus the profile's home advantage for the home side whenever that is already in [0, 1] |
| ProbabilityBlend.ZeroGoalsSkipPoisson | backend/src/controllers/probabilityController.js:32 | a goal rate of 0 is falsy and switches the Poisson component off |
| ProbabilityBlend.BlendReadsObject | backend/src/controllers/probabilityController.js:7-38 | two factor lists that give every key the same value, a repeated key taking its last value, get the same answer |
| ProbabilityBlend.RatingsDoNotMatter | backend/src/controllers/probabilityController.js:24-28 | the team and opponent ratings passed in do not change the answer |
| ProbabilityBlend.HomeAdvantageHelps | backend/src/controllers/probabilityController.js:59-64 | with a non-negative home advantage the away side's answer never exceeds the home side's |

## Left out

- Persistence and transport are not modelled: Mongoose queries, aggregation pipelines, Express handlers and routes. This covers `getBets`, `getBetStats`, `getMarketOdds`, `getUpcomingEvents`, `updateMarketOdds`, `cleanupOldOdds`, `findByCategory`, `findBySportAndLeague`, `getTeamMetrics`, `getTeamHistory` and `addHistoricalData`. Where a modelled fragment needs the result of a query, that result is a parameter.
- Authentication is not modelled: password hashing, `comparePassword`, `generateAuthToken` and the Firebase middleware. None of them holds betting logic.
- The React components and the axios services are not modelled. They are presentation and network code.
- The display formatters are not modelled, because their only logic is `toFixed`/`Math.round` rendering to text: `formatProbabilityAsPercentage`, `formatExpectedValue`, `formatEdge`, `formatRegressionFactor`, `formatReliability`, `formatPerformanceDifference`, `formatConfidenceInterval`, `formatProbabilityAdjustment`, `formatReliabilityPercent` and `generateRegressionVisualizationData`.
- The texts that accompany recommendations and biases (descriptions, explanations, suggested actions) are not modelled. Each is a constant string, or interpolates a `toFixed` rendering.
- `Math.pow(10, x)`, `Math.exp` and `Math.sqrt` are parameters, as described above. Only the facts stated in the preconditions (positivity, the square of the root) are assumed of them.
- IEEE-754 rounding is not modelled: every operation is exact. A result that JavaScript would round differently in the last bit is the same here.
- MarketOdds: `None` stands for NaN and for both infinities alike. Consequences of an infinity that JavaScript would turn back into a finite number (1/Infinity = 0) are not followed.
- Ieee.Number has no signed zero: every zero is +0. A division by -0, which JavaScript answers with the infinity of the opposite sign, is not modelled.
- BetFlow.RiskGate: the stake is a number. A text stake, which the bet validator lets through because it tests only `!stake`, makes `dailyLoss + stake` concatenate text in the source; that comparison of text with a number is not modelled, because it needs JavaScript's printing of arbitrary reals.
- BetFlow.CreateBet: inherits RiskGate's numeric stake, so the stop-loss test on a text stake is not modelled. The validation of `Bet.create` is modelled by the numeric bounds of `BetRecord.WithinSchema`: the fields the schema requires are always present here.
- BetFlow.NewBet: the user probability, the stake and the confidence level are numbers. Text values, which JavaScript would coerce or concatenate in the Kelly arithmetic, are not modelled.
- BetFlow.SettleUser: takes the numeric result; the absent result is handled by BetFlow.SettleBet, which fails with the NaN bankroll.
- Factors.Confidence: a factor input's weight is a number or absent. A text weight would be concatenated into `totalWeight` (factorCalculations.js:177); that is not modelled.
- StatModels.ParamsFor: sport names that JavaScript resolves through the object prototype (`constructor`, `toString`) are treated like any other unknown sport and get the basketball parameters. In the source they yield a function with no `defaultRating`, and the ratings become NaN.
- Kelly.CalculateKellyBet: the multiplier and the cap are always passed. The defaults the source supplies when a caller omits them (1 and 0.25) are not modelled, because every modelled caller passes both.
- Js.ToNumber and Js.ParseFloat read numeric text with the grammar `[+|-] digits [. digits]`. They do not cover:
  - exponents, hexadecimal, binary and octal literals;
  - `Infinity`;
  - the whitespace that `Number` trims.
- RegressionUtils.UpperChar and Js.Lower change ASCII letters only: the Unicode case mappings of `toUpperCase` and `toLowerCase` are not modelled.
- BetCalc.CalculateKelly: does not model the two-decimal rounding of each figure. A result with a non-finite figure is reported as `NotFinite` without saying which figure.
- Kelly.CalculateKellyBet: requires odds that read as a finite decimal other than 0 and 1. For such odds the source divides by zero and produces NaN or infinite figures, which are not modelled. BetFlow.NewBet and BetFlow.CreateBet inherit this precondition.
- Kelly.CalculateRiskMetrics: requires odds that read as a finite decimal.
- MarketOdds.FairProbabilities: requires implied probabilities with a non-zero total. `CompareOdds` handles the zero case itself, reporting no fair probability.
- Calibration.CalibrationCurve: requires at least one bin and non-negative probabilities. The source indexes its bin array with the computed bin number and throws a TypeError for bin -1, which is not modelled.
- Regression.IdentifyCognitiveBiases: requires a positive stabilization point, which every result of `calculateRegressionAdjustment` has. The division by a zero stabilization point is not modelled. Regression.HotHandCheck and Regression.SmallSampleCheck carry the same precondition.
- Regression.RegressionInterval: the square root of the sample size is supplied through `SqrtOf`, a non-negative root for a non-negative sample and NaN below 0.
- Regression.GetSportSpecificRegressionFactors: sport and metric names that JavaScript resolves through the object prototype (`constructor`, `toString`) are treated like any other unknown name. In the source such a sport selects a function instead of a table, so every metric falls to the default `anyMetric` {0.65, 40}, even `winPercentage`, which the default table lists. Such a metric returns that function rather than a factor, whatever the sport. Neither case is modelled.
- Regression.UnknownSportUsesDefault: holds for sport names that are not prototype members. For those the source reads the default `anyMetric` for every metric, as described above.
- Regression.UnknownMetricFallsBack: holds for metric names that are not prototype members. For those the source returns a function, not {0.65, 40}.
- Regression.TableStdDev: the same holds for the standard-deviation lookup. A prototype sport name gives the default `anyMetric` 0.1 for every metric, even `winPercentage` (0.15 in the default table). A prototype metric name gives a function, and the deviation computed from it is NaN. Neither case is modelled.
- MarketComparison.FormatOdds: the odds are `Option<real>`, and `None` stands for NaN and both infinities alike, so infinite odds show "N/A". The source shows "N/A" only for NaN. It prints infinite odds as JavaScript renders them, "+Infinity" in the American format for example.
- StatModels.RegressionProbability: the feature values are numbers. In the source `*` coerces any other value (statisticalModels.js:138): numeric text counts as its number, and a value that is not a number makes the sum NaN, which `Math.max`/`Math.min` pass on, so the prediction is NaN. That coercion and the NaN result are not modelled.
- ProbabilityBlend.CalculateProbability: the values of the `factors` object are numbers. A non-numeric feature would make the regression component NaN, and text goal rates would be judged by the truthiness of text and coerced in the Poisson term. None of that is modelled.
- StatModels.WeightsFor: feature names that JavaScript resolves through the object prototype (`constructor`, `toString`) are treated like any other unknown name, with weight 0.
- Validation.ValidateBetCreation: the event-date check compares with the current time, so its outcome is an input. The parse of the date text is not modelled.
- TeamPerformance.HistoricalData: the dates of the filter are whole numbers. Parsing the query's date text is not modelled.
- ProbabilityProfile.Save: the lookup of another default profile is replaced by the list of stored profiles. Mongoose's own validation runs before the hooks. A hook that reports an error and still calls `next()` ends the save with that error.
- The schema-only model files (`Factor.js`, `FactorTemplate.js`, `calibrationModel.js`, `marketOddsModel.js`) hold no logic and are not modelled. Neither is the factor-template pre-save hook.
