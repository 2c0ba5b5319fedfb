/** The front end's market helpers (smart-sports-betting/src/utils/marketComparisonUtils.js):
    odds display, the fractional Kelly stake, edge categories and colours, the break-even
    threshold and the short bookmaker name. A JavaScript number that is not finite, or
    absent, is `None`. */
module MarketComparison {
  import opened Wrappers
  import opened RealMath
  import Js
  import Kelly
  import MarketOdds
  import Fractions

  // ---------------------------------------------------------------- formatOdds

  /** What `formatOdds` returns: text, or the odds printed with two decimals (a display
      rounding left to the caller). */
  datatype Display = Text(s: string) | FixedTwo(x: real)

  /** `formatOdds`: falsy odds show "N/A"; the American branch is the back end's
      `decimalToAmerican` with a '+' before prices from evens up; the fractional branch is
      the back end's fraction search; anything else is two-decimal odds. */
  function FormatOdds(decimalOdds: Option<real>, format: string): (r: Display)
    ensures decimalOdds.None? || decimalOdds.value == 0.0 ==> r == Text("N/A")
    ensures decimalOdds.Some? && decimalOdds.value != 0.0 && format == "american" ==>
              var d := decimalOdds.value;
              var a := MarketOdds.DecimalToAmerican(d);
              r == Text(if d >= 2.0 then "+" + Js.IntToString(a) else Js.IntToString(a))
    ensures decimalOdds.Some? && decimalOdds.value != 0.0 && format == "fractional" ==>
              r == Text(MarketOdds.DecimalToFractional(decimalOdds))
    ensures decimalOdds.Some? && decimalOdds.value != 0.0 && format != "american" && format != "fractional" ==>
              r == FixedTwo(decimalOdds.value)
  {
    if decimalOdds.None? || decimalOdds.value == 0.0 then Text("N/A")
    else
      var d := decimalOdds.value;
      if format == "american" then
        if d == 1.0 then Text("0")
        else if d >= 2.0 then Text("+" + Js.IntToString(Round((d - 1.0) * 100.0)))
        else Text(Js.IntToString(Round(-100.0 / (d - 1.0))))
      else if format == "fractional" then
        Text(MarketOdds.DecimalToFractional(decimalOdds))
      else FixedTwo(d)
  }

  /** A whole positive American price of at least 100 is shown as itself with a '+'. */
  lemma FormatAmericanRoundTrip(a: int)
    requires a >= 100
    ensures FormatOdds(Some(MarketOdds.AmericanToDecimal(a as real)), "american")
            == Text("+" + Js.IntToString(a))
  {
    MarketOdds.AmericanRoundTrip(a);
  }

  /** A whole negative American price below -100 is shown as itself. */
  lemma FormatNegativeAmericanRoundTrip(a: int)
    requires a < -100
    ensures FormatOdds(Some(MarketOdds.AmericanToDecimal(a as real)), "american") == Text(Js.IntToString(a))
  {
    MarketOdds.AmericanRoundTrip(a);
  }

  /** Decimal odds p/q + 1, with p/q in lowest terms and q at most 100, are shown as "p/q". */
  lemma FormatFractionalExact(p: nat, q: nat)
    requires 1 <= q <= Fractions.MaxDenominator
    requires Fractions.LeastDenominator(p as real / q as real, q)
    ensures FormatOdds(Some(p as real / q as real + 1.0), "fractional")
            == Text(Js.IntToString(p) + "/" + Js.IntToString(q))
  {
    var x := p as real / q as real;
    assert (x * q as real).Floor == p by {
      MarketOdds.ExactValue(x, q as real, p);
    }
    MarketOdds.DecimalToFractionalExact(x, q);
    var text := MarketOdds.DecimalToFractional(Some(x + 1.0));
    assert FormatOdds(Some(x + 1.0), "fractional") == Text(text);
  }

  // ---------------------------------------------------------------- calculateKellyBetSize

  /** The divisor of the `fraction` switch: 'half' is 2, 'quarter' is 4, anything else is
      full Kelly. */
  function FractionDivisor(fraction: string): (k: real)
    ensures fraction == "half" ==> k == 2.0
    ensures fraction == "quarter" ==> k == 4.0
    ensures fraction != "half" && fraction != "quarter" ==> k == 1.0
  {
    if fraction == "half" then 2.0 else if fraction == "quarter" then 4.0 else 1.0
  }

  /** The share of the bankroll for odds other than 1: the Kelly fraction divided per the
      `fraction` switch and clamped to [0, 1]. */
  function StakeShare(probability: real, decimalOdds: real, fraction: string): (s: real)
    requires decimalOdds != 1.0
    ensures 0.0 <= s <= 1.0
  {
    Clamp01(Kelly.RawKelly(probability, decimalOdds) / FractionDivisor(fraction))
  }

  /** `calculateKellyBetSize`: the full Kelly fraction, divided per the `fraction` switch,
      clamped to [0, 1] and applied to the bankroll. At decimal odds of exactly 1 the net
      odds are 0 and the division gives minus infinity (clamped to 0), plus infinity
      (clamped to 1), or NaN for a probability of 1. */
  function KellyBetSize(probability: real, decimalOdds: real, bankroll: real, fraction: string): (r: Option<real>)
    ensures decimalOdds != 1.0 ==> r.Some? && r.value == StakeShare(probability, decimalOdds, fraction) * bankroll
    ensures r.None? <==> decimalOdds == 1.0 && probability == 1.0
    ensures r.Some? && bankroll >= 0.0 ==> 0.0 <= r.value <= bankroll
  {
    if decimalOdds == 1.0 then
      var q := 1.0 - probability;
      if q > 0.0 then Some(0.0 * bankroll)
      else if q < 0.0 then Some(1.0 * bankroll)
      else None
    else
      var share := StakeShare(probability, decimalOdds, fraction);
      var stake := share * bankroll;
      assert bankroll >= 0.0 ==> 0.0 <= stake <= bankroll by {
        if bankroll >= 0.0 {
          PartOf(share, bankroll);
        }
      }
      Some(stake)
  }

  /** With no edge over the price (p·d at most 1) and odds above evens-or-worse, the stake
      is 0. */
  lemma NoEdgeNoStake(probability: real, decimalOdds: real, bankroll: real, fraction: string)
    requires decimalOdds > 1.0 && probability * decimalOdds <= 1.0
    ensures KellyBetSize(probability, decimalOdds, bankroll, fraction) == Some(0.0)
  {
    var b := decimalOdds - 1.0;
    var raw := Kelly.RawKelly(probability, decimalOdds);
    assert raw * b == probability * decimalOdds - 1.0;
    PositiveProduct(b, raw);
    assert StakeShare(probability, decimalOdds, fraction) == 0.0;
  }

  /** Dividing the Kelly fraction by 2 or 4 never raises the clamped share. */
  lemma FractionalShareLess(probability: real, decimalOdds: real, fraction: string)
    requires decimalOdds != 1.0
    ensures StakeShare(probability, decimalOdds, fraction) <= StakeShare(probability, decimalOdds, "full")
  {
    var raw := Kelly.RawKelly(probability, decimalOdds);
    var k := FractionDivisor(fraction);
    assert FractionDivisor("full") == 1.0 by {
      assert "full"[0] != "half"[0] && "full"[0] != "quarter"[0];
    }
    if raw > 0.0 {
      DivideStrict(0.0, raw, k);
      assert raw / k <= raw;
    }
  }

  /** Half and quarter Kelly never stake more than full Kelly. */
  lemma FractionalKellyStakesLess(probability: real, decimalOdds: real, bankroll: real, fraction: string)
    requires decimalOdds != 1.0 && bankroll >= 0.0
    ensures KellyBetSize(probability, decimalOdds, bankroll, fraction).value
            <= KellyBetSize(probability, decimalOdds, bankroll, "full").value
  {
    var part := StakeShare(probability, decimalOdds, fraction);
    var full := StakeShare(probability, decimalOdds, "full");
    FractionalShareLess(probability, decimalOdds, fraction);
    StakeMonotone(bankroll, part, full);
  }

  lemma StakeMonotone(bankroll: real, part: real, full: real)
    requires bankroll >= 0.0 && part <= full
    ensures part * bankroll <= full * bankroll
  {
    ScaleMonotone(bankroll, part, full);
  }

  // ---------------------------------------------------------------- edge categories

  datatype EdgeCategory = Strong | Moderate | Weak | Negative

  /** `getEdgeCategory`: above 10 strong, above 5 moderate, above 0 weak, else negative. */
  function GetEdgeCategory(edgePercentage: real): (c: EdgeCategory)
    ensures c == Strong <==> edgePercentage > 10.0
    ensures c == Moderate <==> 5.0 < edgePercentage <= 10.0
    ensures c == Weak <==> 0.0 < edgePercentage <= 5.0
    ensures c == Negative <==> edgePercentage <= 0.0
  {
    if edgePercentage > 10.0 then Strong
    else if edgePercentage > 5.0 then Moderate
    else if edgePercentage > 0.0 then Weak
    else Negative
  }

  datatype EdgeColor = Success600 | Success500 | Success400 | Warning500 | Error500

  /** `getEdgeColor`: the three success shades for the three positive categories, a
      warning down to -5 and an error below. */
  function GetEdgeColor(value: real): (c: EdgeColor)
    ensures c == Warning500 <==> -5.0 < value <= 0.0
    ensures c == Error500 <==> value <= -5.0
  {
    if value > 10.0 then Success600
    else if value > 5.0 then Success500
    else if value > 0.0 then Success400
    else if value > -5.0 then Warning500
    else Error500
  }

  /** The colour follows the category: each positive category has its own success shade,
      and a negative edge is a warning or an error. */
  lemma ColorMatchesCategory(edge: real)
    ensures GetEdgeCategory(edge) == Strong <==> GetEdgeColor(edge) == Success600
    ensures GetEdgeCategory(edge) == Moderate <==> GetEdgeColor(edge) == Success500
    ensures GetEdgeCategory(edge) == Weak <==> GetEdgeColor(edge) == Success400
    ensures GetEdgeCategory(edge) == Negative <==> GetEdgeColor(edge) in {Warning500, Error500}
  {
  }

  // ---------------------------------------------------------------- calculateBettingThreshold

  const DefaultRequiredEdge: real := 0.03

  /** `calculateBettingThreshold`: the fair probability (margin removed) raised by the
      required edge; a margin of -1 divides by zero. */
  function BettingThreshold(impliedProbability: real, margin: real, requiredEdge: real): (r: Option<real>)
    ensures r.Some? <==> MarketOdds.RemoveFairMargin(impliedProbability, margin, 0).Some?
    ensures r.Some? ==>
              r.value == MarketOdds.RemoveFairMargin(impliedProbability, margin, 0).value * (1.0 + requiredEdge)
  {
    if 1.0 + margin == 0.0 then None
    else Some(impliedProbability / (1.0 + margin) * (1.0 + requiredEdge))
  }

  /** A probability at or above the threshold beats the fair probability by at least the
      required edge, measured as `calculateEdgePercentage` does. */
  lemma ThresholdGivesRequiredEdge(p: real, impliedProbability: real, margin: real, requiredEdge: real)
    requires BettingThreshold(impliedProbability, margin, requiredEdge).Some?
    requires MarketOdds.RemoveFairMargin(impliedProbability, margin, 0).value > 0.0
    requires p >= BettingThreshold(impliedProbability, margin, requiredEdge).value
    ensures MarketOdds.EdgePercentage(p, MarketOdds.RemoveFairMargin(impliedProbability, margin, 0).value).value
            >= requiredEdge * 100.0
  {
    var fair := MarketOdds.RemoveFairMargin(impliedProbability, margin, 0).value;
    var e := MarketOdds.EdgePercentage(p, fair).value;
    assert e * fair == (p - fair) * 100.0;
    assert p - fair >= fair * requiredEdge;
    assert e * fair >= requiredEdge * 100.0 * fair;
  }

  // ---------------------------------------------------------------- getShortBookmakerName

  /** `getShortBookmakerName`: a name of at most two space-separated parts is kept, a
      longer one is cut to its first two parts. */
  function ShortBookmakerName(fullName: string): (r: string)
    ensures |Js.Split(fullName, ' ')| <= 2 ==> r == fullName
    ensures |Js.Split(fullName, ' ')| > 2 ==>
              var parts := Js.Split(fullName, ' ');
              r == parts[0] + " " + parts[1]
  {
    var parts := Js.Split(fullName, ' ');
    if |parts| <= 2 then fullName
    else
      var firstTwo := parts[..2];
      assert firstTwo[1..] == [parts[1]] && firstTwo[0] == parts[0];
      assert Js.Join(firstTwo, ' ') == parts[0] + [' '] + Js.Join([parts[1]], ' ');
      Js.Join(firstTwo, ' ')
  }

  /** The short name is always a prefix of the full name, with at most one space. */
  lemma ShortNameIsPrefix(fullName: string)
    ensures ShortBookmakerName(fullName) <= fullName
    ensures Js.Count(ShortBookmakerName(fullName), ' ') <= 1
  {
    var parts := Js.Split(fullName, ' ');
    Js.SplitShape(fullName, ' ');
    if |parts| > 2 {
      var short := parts[0] + " " + parts[1];
      var tail := " " + Js.Join(parts[2..], ' ');
      assert fullName == short + tail by {
        Js.JoinSplit(fullName, ' ');
        assert Js.Join(parts, ' ') == parts[0] + " " + Js.Join(parts[1..], ' ');
        assert Js.Join(parts[1..], ' ') == parts[1] + " " + Js.Join(parts[2..], ' ');
      }
      assert short <= fullName by {
        assert fullName[..|short|] == short;
      }
      assert Js.Count(short, ' ') == 1 by {
        assert short == parts[0] + (" " + parts[1]);
        CountAppend(parts[0], " " + parts[1], ' ');
        CountAppend(" ", parts[1], ' ');
        NoSeparatorCount(parts[0], ' ');
        NoSeparatorCount(parts[1], ' ');
      }
    } else {
      assert Js.Count(fullName, ' ') + 1 <= 2;
    }
  }

  lemma {:induction false} CountAppend(a: string, b: string, c: char)
    ensures Js.Count(a + b, c) == Js.Count(a, c) + Js.Count(b, c)
  {
    if |a| > 0 {
      assert (a + b)[1..] == a[1..] + b;
      CountAppend(a[1..], b, c);
    } else {
      assert a + b == b;
    }
  }

  lemma {:induction false} NoSeparatorCount(s: string, c: char)
    requires c !in s
    ensures Js.Count(s, c) == 0
  {
    if |s| > 0 {
      assert c !in s[1..];
      NoSeparatorCount(s[1..], c);
    }
  }
}
