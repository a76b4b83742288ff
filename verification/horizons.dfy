/**
 The per-horizon decisions of `DecisionSupportEngine.generate`
 (src/quant_platform/ml_decision_support.py), in exact arithmetic.
 */
module Horizons {
  import opened Sums
  import Calibration

  datatype Regime = VolatileRange | TrendUp | TrendDown | ThinLiquidity | MeanReversion

  datatype RegimeSnapshot = RegimeSnapshot(regime: Regime, realizedVolProxy: real)

  datatype Band = HoldFire | LeanLong | LeanShort | Watch

  datatype Decision = Decision(expectedReturn: real, downsideRisk: real, confidence: real, band: Band)

  function Get(features: map<string, real>, name: string): real {
    if name in features then features[name] else 0.5
  }

  /** `_RegimeClassifier.classify`; the proxies it reports are rounded. */
  function Classify(round4: real -> real, features: map<string, real>): RegimeSnapshot {
    var open, high, low, close := Get(features, "open"), Get(features, "high"), Get(features, "low"), Get(features, "close");
    var momentum, vol, liquidity := close - open, Abs(high - low), Get(features, "volume");
    RegimeSnapshot(
      if vol >= 0.35 && Abs(momentum) <= 0.08 then VolatileRange
      else if momentum >= 0.08 && close >= 0.55 then TrendUp
      else if momentum <= -0.08 && close <= 0.45 then TrendDown
      else if liquidity < 0.25 then ThinLiquidity
      else MeanReversion,
      round4(vol))
  }

  /** The three weights before they are brought to a sum of one. */
  function Weights(base: real, regime: Regime): (w: (real, real, real))
    ensures 0.01 <= w.0 <= 0.96 && 0.01 <= w.1 <= 0.96 && 0.01 <= w.2 <= 0.96
  {
    var up0 := Clamp(0.25 + 0.75 * base, 0.02, 0.95);
    var down0 := Clamp(0.25 + 0.75 * (1.0 - base), 0.02, 0.95);
    var flat0 := 1.0 - Abs(base - 0.5) * 1.3;
    var (up1, flat1, down1) :=
      match regime
      case TrendUp => (up0 + 0.08, flat0, down0 - 0.05)
      case TrendDown => (up0 - 0.05, flat0, down0 + 0.08)
      case VolatileRange => (up0, flat0 + 0.07, down0)
      case ThinLiquidity => (up0, flat0 + 0.05, down0 + 0.03)
      case MeanReversion => (up0, flat0, down0);
    (Clamp(up1, 0.01, 0.96), Clamp(flat1, 0.01, 0.96), Clamp(down1, 0.01, 0.96))
  }

  /** `_probability_triplet`: up, flat, down. */
  function ProbabilityTriplet(base: real, regime: Regime): (t: (real, real, real))
    ensures t.2 > 0.0
  {
    var (up, flat, down) := Weights(base, regime);
    Normalize(up, flat, down)
  }

  function Normalize(up: real, flat: real, down: real): (t: (real, real, real))
    requires up > 0.0 && flat > 0.0 && down > 0.0
    ensures t.0 > 0.0 && t.1 > 0.0 && t.2 > 0.0 && t.0 + t.1 + t.2 == 1.0
  {
    var total := up + flat + down;
    assert up / total + flat / total + down / total == (up + flat + down) / total;
    (up / total, flat / total, down / total)
  }

  /** The five features of a day, one half where missing. */
  function WithDefaults(features: map<string, real>): (f: map<string, real>)
    ensures {"open", "high", "low", "close", "volume"} <= f.Keys
  {
    map["open" := 0.5, "high" := 0.5, "low" := 0.5, "close" := 0.5, "volume" := 0.5] + features
  }

  /**
   The regime in terms of the day: a wide range with no more than a small move is
   volatile; a move of at least that much ending on its own side is a trend, at the
   limit itself only within a narrow range; of the rest, little volume is thin.
   */
  lemma ClassifyIff(round4: real -> real, features: map<string, real>)
    ensures var f := WithDefaults(features);
            var open, close := f["open"], f["close"];
            var range, move := Abs(f["high"] - f["low"]), close - open;
            var up := close >= 0.55 && (move > 0.08 || (move == 0.08 && range < 0.35));
            var down := close <= 0.45 && (move < -0.08 || (move == -0.08 && range < 0.35));
            var volatile := range >= 0.35 && -0.08 <= move <= 0.08;
            var r := Classify(round4, features);
            && (r.regime == TrendUp <==> up) && (r.regime == TrendDown <==> down) && (r.regime == VolatileRange <==> volatile)
            && (r.regime == ThinLiquidity <==> !up && !down && !volatile && f["volume"] < 0.25)
            && (r.regime == MeanReversion <==> !up && !down && !volatile && f["volume"] >= 0.25)
            && r.realizedVolProxy == round4(range)
  {
  }

  function Mirror(regime: Regime): Regime {
    match regime
    case TrendUp => TrendDown
    case TrendDown => TrendUp
    case _ => regime
  }

  /** Up and down change places when the score is mirrored at one half and the trend turned; a thin market alone takes a side. */
  lemma TripletMirrors(base: real, regime: Regime)
    requires regime != ThinLiquidity
    ensures var t, m := ProbabilityTriplet(base, regime), ProbabilityTriplet(1.0 - base, Mirror(regime));
            m.0 == t.2 && m.1 == t.1 && m.2 == t.0
  {
    assert Abs(1.0 - base - 0.5) == Abs(base - 0.5);
    NormalizeSwaps(Weights(base, regime).0, Weights(base, regime).1, Weights(base, regime).2);
  }

  lemma NormalizeSwaps(up: real, flat: real, down: real)
    requires up > 0.0 && flat > 0.0 && down > 0.0
    ensures var t, m := Normalize(up, flat, down), Normalize(down, flat, up); m.0 == t.2 && m.1 == t.1 && m.2 == t.0
  {
    assert up + flat + down == down + flat + up;
  }

  lemma NormalizeOrders(up: real, flat: real, down: real)
    requires up > 0.0 && flat > 0.0 && down > 0.0
    ensures var t := Normalize(up, flat, down);
            && (t.0 > t.2 <==> up > down) && (t.1 > t.0 <==> flat > up) && (t.1 > t.2 <==> flat > down)
            && (t.0 == t.2 <==> up == down)
  {
    var total := up + flat + down;
    ShareOrders(up, down, total);
    ShareOrders(flat, up, total);
    ShareOrders(flat, down, total);
    ShareOrders(down, up, total);
  }

  lemma ShareOrders(x: real, y: real, total: real)
    requires total > 0.0
    ensures x / total > y / total <==> x > y
  {
    assert x / total - y / total == (x - y) / total;
  }

  /**
   In a market without a side up is likelier than down exactly for a score above one
   half. At one half flat is the likeliest everywhere; at a score of one it is not,
   and down the least likely.
   */
  lemma TripletLeans(base: real, regime: Regime)
    ensures var t := ProbabilityTriplet(base, regime);
            && (regime == MeanReversion || regime == VolatileRange ==> (t.0 > t.2 <==> base > 0.5) && (t.0 == t.2 <==> base == 0.5))
            && (base == 0.5 ==> t.1 > t.0 && t.1 > t.2)
            && (base == 1.0 ==> t.0 > t.1 > t.2)
  {
    NormalizeOrders(Weights(base, regime).0, Weights(base, regime).1, Weights(base, regime).2);
  }

  /** The odds of up against down rise in an upward trend and fall in a downward one or a thin market. */
  lemma TripletFollowsRegime(base: real)
    ensures var plain := ProbabilityTriplet(base, MeanReversion);
            && Odds(ProbabilityTriplet(base, TrendUp)) > Odds(plain)
            && Odds(ProbabilityTriplet(base, TrendDown)) < Odds(plain)
            && Odds(ProbabilityTriplet(base, ThinLiquidity)) < Odds(plain)
            && Odds(ProbabilityTriplet(base, VolatileRange)) == Odds(plain)
  {
    forall r: Regime ensures Odds(ProbabilityTriplet(base, r)) == Weights(base, r).0 / Weights(base, r).2 {
      OddsOfWeights(Weights(base, r).0, Weights(base, r).1, Weights(base, r).2);
    }
    var p := Weights(base, MeanReversion);
    OddsRise(p.0, p.2, Weights(base, TrendUp).0, Weights(base, TrendUp).2);
    OddsRise(Weights(base, TrendDown).0, Weights(base, TrendDown).2, p.0, p.2);
    OddsRise(Weights(base, ThinLiquidity).0, Weights(base, ThinLiquidity).2, p.0, p.2);
  }

  function Odds(t: (real, real, real)): real
    requires t.2 > 0.0
  {
    t.0 / t.2
  }

  lemma OddsOfWeights(up: real, flat: real, down: real)
    requires up > 0.0 && flat > 0.0 && down > 0.0
    ensures Odds(Normalize(up, flat, down)) == up / down
  {
    var total := up + flat + down;
    var u, d := up / total, down / total;
    assert u * total == up && d * total == down;
    assert u / d * d == u;
    assert u / d * down == u / d * d * total == up;
  }

  lemma OddsRise(u: real, d: real, u': real, d': real)
    requires 0.0 < u <= u' && 0.0 < d' <= d && (u < u' || d' < d)
    ensures u / d < u' / d'
  {
    var gain := (u' - u) * d + u * (d - d');
    assert (u' - u) * d >= 0.0 && u * (d - d') >= 0.0;
    assert u < u' ==> (u' - u) * d > 0.0;
    assert d' < d ==> u * (d - d') > 0.0;
    assert gain == u' * d - u * d';
    QuotientsApart(u, d, u', d');
  }

  lemma QuotientsApart(u: real, d: real, u': real, d': real)
    requires d > 0.0 && d' > 0.0 && u' * d - u * d' > 0.0
    ensures u / d < u' / d'
  {
    var n := d * d';
    assert n > 0.0;
    assert u / d == (u * d') / n;
    assert u' / d' == (u' * d) / n;
    assert (u' * d) / n - (u * d') / n == (u' * d - u * d') / n;
  }

  /** For any base score and regime the triplet is a probability distribution with no impossible outcome. */
  lemma TripletIsDistribution(base: real, regime: Regime)
    ensures var (up, flat, down) := ProbabilityTriplet(base, regime);
            up > 0.0 && flat > 0.0 && down > 0.0 && up + flat + down == 1.0
  {
  }

  // ---------- one horizon ----------

  function ActionBand(expected: real, confidence: real, downside: real): Band {
    if confidence < 0.45 then HoldFire
    else if expected > 0.009 && downside < 0.015 then LeanLong
    else if expected < -0.009 && downside > 0.015 then LeanShort
    else Watch
  }

  function Confidence(base: real, vol: real, ece: real): real {
    Clamp(0.58 + Abs(base - 0.5) * 0.55 - vol * 0.30 - ece * 0.65, 0.05, 0.98)
  }

  function Decide(base: real, vol: real, ece: real, scale: real): Decision {
    var expected := ((base - 0.5) * 0.045) * scale;
    var downside := (0.012 + Abs(Min(0.0, expected))) * (1.0 + vol * 0.8);
    var confidence := Confidence(base, vol, ece);
    Decision(expected, downside, confidence, ActionBand(expected, confidence, downside))
  }

  const SCALES := [1.0, 0.72, 0.54]

  /** The horizon loop: intraday, swing, position. */
  function Generate(base: real, vol: real, ece: real): (ds: seq<Decision>)
    ensures |ds| == |SCALES|
  {
    seq(|SCALES|, i requires 0 <= i < |SCALES| => Decide(base, vol, ece, SCALES[i]))
  }

  lemma Spread(base: real, scale: real)
    requires scale > 0.0
    ensures ((base - 0.5) * 0.045) * scale > 0.009 <==> (base - 0.5) * scale > 0.2
    ensures ((base - 0.5) * 0.045) * scale < -0.009 <==> (base - 0.5) * scale < -0.2
  {
    assert ((base - 0.5) * 0.045) * scale == 0.045 * ((base - 0.5) * scale);
  }

  lemma Downside(x: real, vol: real)
    requires x >= 0.0 && vol >= 0.0
    ensures (0.012 + x) * (1.0 + vol * 0.8) >= 0.012 + x
  {
    assert (0.012 + x) * (vol * 0.8) >= 0.0;
    assert (0.012 + x) * (1.0 + vol * 0.8) == (0.012 + x) + (0.012 + x) * (vol * 0.8);
  }

  /** Confidence falls with volatility and calibration error, rises with the distance of the score from one half, within its limits. */
  lemma ConfidenceMonotone(base: real, vol: real, ece: real, base': real, vol': real, ece': real)
    requires Abs(base - 0.5) <= Abs(base' - 0.5) && vol' <= vol && ece' <= ece
    ensures 0.05 <= Confidence(base, vol, ece) <= Confidence(base', vol', ece') <= 0.98
  {
  }

  /** The distance of the score from one half outweighs volatility and calibration error. */
  predicate Steady(base: real, vol: real, ece: real) {
    0.55 * Abs(base - 0.5) + 0.13 >= 0.30 * vol + 0.65 * ece
  }

  /**
   Each lean in closed form. A long lean needs the score far enough above one half
   for the horizon and a calm market; a short lean needs only the mirror of the
   first, because a return that low already makes the downside test true.
   */
  lemma LeansExactly(base: real, vol: real, ece: real, scale: real)
    requires vol >= 0.0 && scale > 0.0
    ensures var d := Decide(base, vol, ece, scale);
            && (d.band == HoldFire <==> !Steady(base, vol, ece))
            && (d.band == LeanLong <==> Steady(base, vol, ece) && (base - 0.5) * scale > 0.2 && vol < 0.3125)
            && (d.band == LeanShort <==> Steady(base, vol, ece) && (base - 0.5) * scale < -0.2)
            && (d.expectedReturn < -0.009 ==> d.downsideRisk > 0.015)
            && d.expectedReturn == 0.045 * ((base - 0.5) * scale)
            && d.downsideRisk == (if base >= 0.5 then 0.012 else 0.012 - d.expectedReturn) * (1.0 + 0.8 * vol)
            && d.confidence == Confidence(base, vol, ece)
  {
    Spread(base, scale);
    var expected := ((base - 0.5) * 0.045) * scale;
    Downside(Abs(Min(0.0, expected)), vol);
  }

  /** Scaling by the longer horizon gives something of the same sign, and no larger in size. */
  lemma ShorterIsStronger(x: real, long: real, short: real)
    requires 0.0 < long <= short
    ensures 0.0 <= x * long <= x * short || x * short <= x * long <= 0.0
  {
    if x >= 0.0 {
      ScaleUp(x, long, short);
    } else {
      ScaleUp(-x, long, short);
      assert -x * long == -(x * long);
      assert -x * short == -(x * short);
    }
  }

  lemma ScaleUp(x: real, long: real, short: real)
    requires x >= 0.0 && 0.0 < long <= short
    ensures 0.0 <= x * long <= x * short
  {
    assert x * (short - long) >= 0.0;
    assert x * short == x * long + x * (short - long);
  }

  /**
   Across the horizons of one snapshot the bands are nested: holding fire is
   all-or-none, a lean at a longer horizon forces the same lean at every shorter
   one, and the two leans never appear together.
   */
  lemma BandsNested(base: real, vol: real, ece: real, i: nat, j: nat)
    requires vol >= 0.0 && i <= j < |SCALES|
    ensures var shorter, longer := Generate(base, vol, ece)[i].band, Generate(base, vol, ece)[j].band;
            && (shorter == HoldFire <==> longer == HoldFire)
            && (longer == LeanLong ==> shorter == LeanLong)
            && (longer == LeanShort ==> shorter == LeanShort)
            && !(shorter == LeanLong && longer == LeanShort) && !(shorter == LeanShort && longer == LeanLong)
  {
    assert 0.0 < SCALES[j] <= SCALES[i];
    LeansExactly(base, vol, ece, SCALES[i]);
    LeansExactly(base, vol, ece, SCALES[j]);
    ShorterIsStronger(base - 0.5, SCALES[j], SCALES[i]);
    Thresholds((base - 0.5) * SCALES[j], (base - 0.5) * SCALES[i]);
  }

  lemma Thresholds(long: real, short: real)
    requires 0.0 <= long <= short || short <= long <= 0.0
    ensures long > 0.2 ==> short > 0.2
    ensures long < -0.2 ==> short < -0.2
    ensures !(short > 0.2 && long < -0.2) && !(short < -0.2 && long > 0.2)
  {
  }

  /** The volatility the bands see is never negative, whatever the features. */
  lemma RoundedVolatility(round4: real -> real, features: map<string, real>)
    requires forall x: real, y: real :: x <= y ==> round4(x) <= round4(y)
    requires round4(0.0) == 0.0
    ensures Classify(round4, features).realizedVolProxy >= 0.0
  {
    var vol := Abs(Get(features, "high") - Get(features, "low"));
    assert round4(0.0) <= round4(vol);
  }

  /** The parts of `generate` that are not looked into: the mean of the features, and rounding to four and six places. */
  datatype Numerics = Numerics(meanOf: map<string, real> -> real, round4: real -> real, round6: real -> real) {

    ghost predicate Sound() {
      (forall x: real, y: real :: x <= y ==> round4(x) <= round4(y)) && round4(0.0) == 0.0
    }
  }

  /** `generate`: the decisions for these features, under the calibration of this window. */
  function GenerateFrom(num: Numerics, features: map<string, real>, window: seq<Calibration.Sample>): (ds: seq<Decision>)
    ensures |ds| == |SCALES|
  {
    var base := Clamp(if |features| > 0 then num.meanOf(features) else 0.5, 0.0, 1.0);
    Generate(base, Classify(num.round4, features).realizedVolProxy,
             Calibration.Rounded(num.round6, Calibration.Exact(window)).ece)
  }

  /**
   Whatever the features, an expected return is at most 2.25 percent either way,
   scaled to its horizon; and for a mean within the unit interval it is proportional
   to the distance of the mean from one half. No features count as one half.
   */
  lemma ReturnsWithin(num: Numerics, features: map<string, real>, window: seq<Calibration.Sample>, i: nat)
    requires i < |SCALES|
    ensures var r := GenerateFrom(num, features, window)[i].expectedReturn;
            && -0.0225 * SCALES[i] <= r <= 0.0225 * SCALES[i]
            && (|features| == 0 ==> r == 0.0)
            && (|features| > 0 && num.meanOf(features) >= 1.0 ==> r == 0.0225 * SCALES[i])
            && (|features| > 0 && num.meanOf(features) <= 0.0 ==> r == -0.0225 * SCALES[i])
            && (|features| > 0 && 0.0 <= num.meanOf(features) <= 1.0 ==>
                  r == 0.045 * (num.meanOf(features) - 0.5) * SCALES[i])
    ensures SCALES[0] == 1.0 && SCALES[1] == 0.72 && SCALES[2] == 0.54
  {
    assert SCALES[i] == 1.0 || SCALES[i] == 0.72 || SCALES[i] == 0.54;
  }

  /** The nesting of the bands, for every feature map and every calibration window. */
  lemma BandsNestedAlways(num: Numerics, features: map<string, real>, window: seq<Calibration.Sample>, i: nat, j: nat)
    requires num.Sound() && i <= j < |SCALES|
    ensures var shorter, longer := GenerateFrom(num, features, window)[i].band, GenerateFrom(num, features, window)[j].band;
            && (shorter == HoldFire <==> longer == HoldFire)
            && (longer == LeanLong ==> shorter == LeanLong)
            && (longer == LeanShort ==> shorter == LeanShort)
            && !(shorter == LeanLong && longer == LeanShort) && !(shorter == LeanShort && longer == LeanLong)
  {
    var base := Clamp(if |features| > 0 then num.meanOf(features) else 0.5, 0.0, 1.0);
    RoundedVolatility(num.round4, features);
    BandsNested(base, Classify(num.round4, features).realizedVolProxy,
                Calibration.Rounded(num.round6, Calibration.Exact(window)).ece, i, j);
  }
}
