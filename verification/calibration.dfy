/**
 `_CalibrationMonitor` (src/quant_platform/ml_decision_support.py): calibration
 statistics over a bounded window of outcomes. Arithmetic is exact; the final
 rounding to six places is any monotone function.
 */
module Calibration {
  import opened Sums

  datatype Sample = Sample(prob: real, hit: int)

  predicate WellFormed(s: Sample) {
    0.0 <= s.prob <= 1.0 && (s.hit == 0 || s.hit == 1)
  }

  ghost predicate AllWellFormed(w: seq<Sample>) {
    forall k :: 0 <= k < |w| ==> WellFormed(w[k])
  }

  datatype CalibrationStatus = CalibrationStatus(
    sampleCount: nat,
    ece: real,
    brierScore: real,
    hitRate: real,
    confidenceDrift: real)

  // ---------- per-sample terms ----------

  function Prob(): Sample -> real { (s: Sample) => s.prob }

  function Label(): Sample -> real { (s: Sample) => s.hit as real }

  function Error(s: Sample): real { s.prob - s.hit as real }

  function Errors(): Sample -> real { (s: Sample) => Error(s) }

  function AbsErrors(): Sample -> real { (s: Sample) => Abs(Error(s)) }

  function Squares(): Sample -> real { (s: Sample) => Error(s) * Error(s) }

  function Hits(): Sample -> real {
    (s: Sample) => if (s.prob >= 0.5) == (s.hit != 0) then 1.0 else 0.0
  }

  // ---------- bins ----------

  const BINS := 10

  /** The membership test of the loop: half-open tenths, the last one closed. */
  predicate InBin(idx: nat, p: real) {
    (idx as real / 10.0 <= p && p < (idx as real + 1.0) / 10.0) || (idx == BINS - 1 && p == 1.0)
  }

  function BinOf(p: real): (idx: nat)
    requires 0.0 <= p <= 1.0
    ensures idx < BINS
  {
    if p == 1.0 then BINS - 1 else (p * 10.0).Floor
  }

  /** The ten bins partition the unit interval: membership is being in the one bin of `p`. */
  lemma BinsPartition(p: real, idx: nat)
    requires 0.0 <= p <= 1.0 && idx < BINS
    ensures InBin(idx, p) <==> idx == BinOf(p)
  {
    if p < 1.0 {
      var f := (p * 10.0).Floor;
      assert f as real <= p * 10.0 < f as real + 1.0;
    }
  }

  function Members(idx: nat, w: seq<Sample>): seq<Sample> {
    if |w| == 0 then []
    else Members(idx, w[..|w| - 1]) + if InBin(idx, w[|w| - 1].prob) then [w[|w| - 1]] else []
  }

  function BinErrors(idx: nat): Sample -> real {
    (s: Sample) => if InBin(idx, s.prob) then Error(s) else 0.0
  }

  lemma {:induction false} MembersSum(idx: nat, w: seq<Sample>)
    ensures SumOf(Prob(), Members(idx, w)) - SumOf(Label(), Members(idx, w)) == SumOf(BinErrors(idx), w)
    ensures |Members(idx, w)| <= |w|
  {
    if |w| > 0 {
      var w', s := w[..|w| - 1], w[|w| - 1];
      MembersSum(idx, w');
      if InBin(idx, s.prob) {
        SumOfSnoc(Prob(), Members(idx, w'), s);
        SumOfSnoc(Label(), Members(idx, w'), s);
      } else {
        assert Members(idx, w) == Members(idx, w');
      }
    }
  }

  lemma NoMembersNoGap(idx: nat, w: seq<Sample>)
    requires |w| > 0 && |Members(idx, w)| == 0
    ensures Abs(SumOf(BinErrors(idx), w)) / |w| as real == 0.0
  {
    MembersSum(idx, w);
    assert SumOf(BinErrors(idx), w) == 0.0;
  }

  /** The sum of absolute bin totals over the first `k` bins. */
  function GapsBelow(k: nat, w: seq<Sample>): real {
    if k == 0 then 0.0 else GapsBelow(k - 1, w) + Abs(SumOf(BinErrors(k - 1), w))
  }

  // ---------- the statistics by definition ----------

  function MeanOf(f: Sample -> real, w: seq<Sample>): real
    requires |w| > 0
  {
    SumOf(f, w) / |w| as real
  }

  function Ece(w: seq<Sample>): real
    requires |w| > 0
  {
    GapsBelow(BINS, w) / |w| as real
  }

  function Exact(w: seq<Sample>): CalibrationStatus {
    if |w| == 0 then CalibrationStatus(0, 0.0, 0.0, 0.0, 0.0)
    else CalibrationStatus(|w|, Ece(w), MeanOf(Squares(), w), MeanOf(Hits(), w),
                           Abs(MeanOf(Prob(), w) - MeanOf(Label(), w)))
  }

  function Rounded(round: real -> real, s: CalibrationStatus): CalibrationStatus {
    if s.sampleCount == 0 then s
    else CalibrationStatus(s.sampleCount, round(s.ece), round(s.brierScore), round(s.hitRate), round(s.confidenceDrift))
  }

  // ---------- drift <= ece <= 1 and ece^2 <= brier <= 1 ----------

  function ErrorsBelow(k: nat): Sample -> real {
    (s: Sample) => if WellFormed(s) && BinOf(s.prob) < k then Error(s) else 0.0
  }

  function AbsErrorsBelow(k: nat): Sample -> real {
    (s: Sample) => if WellFormed(s) && BinOf(s.prob) < k then Abs(Error(s)) else 0.0
  }

  function AbsBinErrors(idx: nat): Sample -> real {
    (s: Sample) => Abs(if InBin(idx, s.prob) then Error(s) else 0.0)
  }

  lemma BelowSplits(k: nat, s: Sample)
    requires WellFormed(s) && k < BINS
    ensures ErrorsBelow(k + 1)(s) == ErrorsBelow(k)(s) + BinErrors(k)(s)
    ensures AbsErrorsBelow(k + 1)(s) == AbsErrorsBelow(k)(s) + AbsBinErrors(k)(s)
  {
    BinsPartition(s.prob, k);
  }

  /** Triangle inequality twice: over the bins, and inside each bin. */
  lemma {:induction false} GapsBetween(k: nat, w: seq<Sample>)
    requires AllWellFormed(w) && k <= BINS
    ensures Abs(SumOf(ErrorsBelow(k), w)) <= GapsBelow(k, w) <= SumOf(AbsErrorsBelow(k), w)
  {
    if k == 0 {
      SumOfConstant(ErrorsBelow(0), 0.0, w);
      SumOfConstant(AbsErrorsBelow(0), 0.0, w);
    } else {
      GapsBetween(k - 1, w);
      TotalsSplit(k - 1, w);
      SumOfTriangle(BinErrors(k - 1), AbsBinErrors(k - 1), w);
    }
  }

  lemma TotalsSplit(k: nat, w: seq<Sample>)
    requires AllWellFormed(w) && k < BINS
    ensures SumOf(ErrorsBelow(k + 1), w) == SumOf(ErrorsBelow(k), w) + SumOf(BinErrors(k), w)
    ensures SumOf(AbsErrorsBelow(k + 1), w) == SumOf(AbsErrorsBelow(k), w) + SumOf(AbsBinErrors(k), w)
  {
    forall s <- w
      ensures ErrorsBelow(k + 1)(s) == ErrorsBelow(k)(s) + BinErrors(k)(s)
      ensures AbsErrorsBelow(k + 1)(s) == AbsErrorsBelow(k)(s) + AbsBinErrors(k)(s)
    {
      BelowSplits(k, s);
    }
    SumOfAdd(ErrorsBelow(k), BinErrors(k), ErrorsBelow(k + 1), w);
    SumOfAdd(AbsErrorsBelow(k), AbsBinErrors(k), AbsErrorsBelow(k + 1), w);
  }

  lemma TotalGaps(w: seq<Sample>)
    requires AllWellFormed(w)
    ensures Abs(SumOf(Errors(), w)) <= GapsBelow(BINS, w) <= SumOf(AbsErrors(), w)
  {
    GapsBetween(BINS, w);
    SumOfCongruent(ErrorsBelow(BINS), Errors(), w);
    SumOfCongruent(AbsErrorsBelow(BINS), AbsErrors(), w);
  }

  lemma ErrorSum(w: seq<Sample>)
    ensures SumOf(Errors(), w) == SumOf(Prob(), w) - SumOf(Label(), w)
  {
    SumOfAdd(Errors(), Label(), Prob(), w);
  }

  lemma ErrorSizes(s: Sample)
    requires WellFormed(s)
    ensures 0.0 <= AbsErrors()(s) <= 1.0
    ensures Squares()(s) == AbsErrors()(s) * AbsErrors()(s) <= AbsErrors()(s)
  {
    var a := Abs(Error(s));
    assert Error(s) * Error(s) == a * a;
    assert a * a <= a * 1.0;
  }

  function One(): Sample -> real { (s: Sample) => 1.0 }

  lemma ErrorTotals(w: seq<Sample>)
    requires AllWellFormed(w)
    ensures SumOf(AbsErrors(), w) <= |w| as real
    ensures SumOf(Squares(), w) <= |w| as real
    ensures SumOf(AbsErrors(), w) * SumOf(AbsErrors(), w) <= |w| as real * SumOf(Squares(), w)
  {
    ErrorsAtMostOne(w);
    ErrorsSquared(w);
  }

  lemma ErrorsSquared(w: seq<Sample>)
    requires AllWellFormed(w)
    ensures SumOf(AbsErrors(), w) * SumOf(AbsErrors(), w) <= |w| as real * SumOf(Squares(), w)
  {
    var f, q := AbsErrors(), Squares();
    forall s <- w ensures q(s) == f(s) * f(s) {
      ErrorSizes(s);
    }
    SumOfSquares(f, q, w);
  }

  lemma ErrorsAtMostOne(w: seq<Sample>)
    requires AllWellFormed(w)
    ensures SumOf(AbsErrors(), w) <= |w| as real && SumOf(Squares(), w) <= |w| as real
  {
    forall s <- w ensures AbsErrors()(s) <= One()(s) && Squares()(s) <= One()(s) {
      ErrorSizes(s);
    }
    SumOfMonotone(AbsErrors(), One(), w);
    SumOfMonotone(Squares(), One(), w);
    SumOfConstant(One(), 1.0, w);
  }

  /** Exactly, before any rounding, on every window. */
  lemma CalibrationBounds(w: seq<Sample>)
    requires AllWellFormed(w)
    ensures var s := Exact(w);
            && 0.0 <= s.confidenceDrift <= s.ece <= 1.0
            && s.ece * s.ece <= s.brierScore <= 1.0
  {
    if |w| > 0 {
      DriftWithinEce(w);
      EceWithinBrier(w);
    }
  }

  lemma DriftWithinEce(w: seq<Sample>)
    requires AllWellFormed(w) && |w| > 0
    ensures Abs(MeanOf(Prob(), w) - MeanOf(Label(), w)) <= Ece(w)
  {
    TotalGaps(w);
    ErrorSum(w);
    DriftAsSum(SumOf(Prob(), w), SumOf(Label(), w), GapsBelow(BINS, w), |w| as real);
  }

  lemma EceWithinBrier(w: seq<Sample>)
    requires AllWellFormed(w) && |w| > 0
    ensures Ece(w) <= 1.0 && Ece(w) * Ece(w) <= MeanOf(Squares(), w) <= 1.0
  {
    TotalGaps(w);
    ErrorTotals(w);
    DivideBounds(GapsBelow(BINS, w), SumOf(AbsErrors(), w), SumOf(Squares(), w), |w| as real);
  }

  lemma DriftAsSum(p: real, l: real, g: real, n: real)
    requires n > 0.0 && Abs(p - l) <= g
    ensures Abs(p / n - l / n) <= g / n
  {
    assert p / n - l / n == (p - l) / n;
    assert (g - (p - l)) / n >= 0.0;
    assert (g + (p - l)) / n >= 0.0;
  }

  lemma DivideBounds(g: real, a: real, q: real, n: real)
    requires n > 0.0 && 0.0 <= g <= a <= n && a * a <= n * q && q <= n
    ensures g / n <= 1.0 && (g / n) * (g / n) <= q / n <= 1.0
  {
    assert g * g <= a * a by {
      assert g * g <= g * a <= a * a;
    }
    var x := g / n;
    assert x * n == g;
    assert (x * n) * (x * n) == (x * x) * n * n;
    assert (x * x) * n * n <= n * q;
    CancelFactor((x * x) * n, q, n);
    var y := q / n;
    assert y * n == q;
    CancelFactor(x * x, y, n);
  }

  lemma CancelFactor(x: real, y: real, n: real)
    requires n > 0.0 && x * n <= n * y
    ensures x <= y
  {
    assert n * (y - x) == n * y - x * n;
    CancelPositive(n, y - x);
  }

  /** Rounding with any monotone function that fixes 0 and 1 keeps the order of drift and error. */
  lemma RoundedBounds(round: real -> real, w: seq<Sample>)
    requires AllWellFormed(w)
    requires forall x: real, y: real :: x <= y ==> round(x) <= round(y)
    requires round(0.0) == 0.0 && round(1.0) == 1.0
    ensures var s := Rounded(round, Exact(w));
            0.0 <= s.confidenceDrift <= s.ece <= 1.0 && 0.0 <= s.brierScore <= 1.0
  {
    CalibrationBounds(w);
    var s := Exact(w);
    assert s.ece * s.ece >= 0.0;
    assert s.sampleCount > 0 ==>
             round(0.0) <= round(s.confidenceDrift) <= round(s.ece) <= round(1.0)
             && round(0.0) <= round(s.brierScore) <= round(1.0);
  }

  // ---------- what the statistics count ----------

  /** The positions where the more likely side is the one that came about. */
  function HitPositions(w: seq<Sample>): set<nat> {
    set k: nat | k < |w| && ((w[k].prob >= 0.5 && w[k].hit == 1) || (w[k].prob < 0.5 && w[k].hit == 0))
  }

  lemma HitsAreOnes(w: seq<Sample>)
    requires AllWellFormed(w)
    ensures SumOf(Hits(), w) == |HitPositions(w)| as real
  {
    SumCounts(Hits(), w);
    forall k: nat | k < |w| ensures Hits()(w[k]) == 1.0 <==> k in HitPositions(w) {
      assert WellFormed(w[k]);
    }
    assert Ones(Hits(), w) == HitPositions(w);
  }

  lemma {:induction false} PositionsWithin(w: seq<Sample>)
    ensures |HitPositions(w)| <= |w|
    ensures |HitPositions(w)| == |w| <==> forall k: nat :: k < |w| ==> k in HitPositions(w)
  {
    if |w| > 0 {
      var n := |w| - 1;
      PositionsWithin(w[..n]);
      assert HitPositions(w) == HitPositions(w[..n]) + if n in HitPositions(w) then {n} else {};
      assert forall k: nat :: k < n ==> (k in HitPositions(w) <==> k in HitPositions(w[..n]));
      assert n !in HitPositions(w[..n]);
    }
  }

  /** `mean` times `n` is `total`. */
  predicate IsMean(mean: real, total: real, n: real) {
    mean * n == total
  }

  lemma MeanTimesCount(x: real, n: real)
    requires n > 0.0
    ensures IsMean(x / n, x, n)
  {
  }

  lemma ShareWithin(m: real, n: real, h: real)
    requires n > 0.0 && 0.0 <= m <= n && IsMean(h, m, n)
    ensures 0.0 <= h <= 1.0 && (h == 1.0 <==> m == n)
  {
    CancelFactor(h, 1.0, n);
    CancelPositive(n, h);
    if m == n {
      CancelFactor(1.0, h, n);
    }
  }

  /** The hit rate times the number of samples is the number of hits; it is one exactly when every sample is a hit. */
  lemma HitRateCounts(w: seq<Sample>)
    requires AllWellFormed(w) && |w| > 0
    ensures IsMean(Exact(w).hitRate, |HitPositions(w)| as real, |w| as real)
    ensures 0.0 <= Exact(w).hitRate <= 1.0
    ensures Exact(w).hitRate == 1.0 <==> forall k: nat :: k < |w| ==> k in HitPositions(w)
  {
    HitsAreOnes(w);
    MeanTimesCount(SumOf(Hits(), w), |w| as real);
    PositionsWithin(w);
    ShareWithin(|HitPositions(w)| as real, |w| as real, Exact(w).hitRate);
  }

  function TotalProb(w: seq<Sample>): real {
    if |w| == 0 then 0.0 else TotalProb(w[..|w| - 1]) + w[|w| - 1].prob
  }

  function TotalSquare(w: seq<Sample>): real {
    if |w| == 0 then 0.0 else TotalSquare(w[..|w| - 1]) + w[|w| - 1].prob * w[|w| - 1].prob
  }

  /** The probabilities given where the return was up. */
  function TotalOnUps(w: seq<Sample>): real {
    if |w| == 0 then 0.0 else TotalOnUps(w[..|w| - 1]) + if w[|w| - 1].hit == 1 then w[|w| - 1].prob else 0.0
  }

  function Ups(w: seq<Sample>): nat {
    if |w| == 0 then 0 else Ups(w[..|w| - 1]) + if w[|w| - 1].hit == 1 then 1 else 0
  }

  lemma {:induction false} PlainTotals(w: seq<Sample>)
    requires AllWellFormed(w)
    ensures SumOf(Prob(), w) == TotalProb(w) && SumOf(Label(), w) == Ups(w) as real
    ensures SumOf(Squares(), w) == TotalSquare(w) - 2.0 * TotalOnUps(w) + Ups(w) as real
  {
    if |w| > 0 {
      PlainTotals(w[..|w| - 1]);
      SquareExpands(w[|w| - 1]);
    }
  }

  lemma SquareExpands(s: Sample)
    requires WellFormed(s)
    ensures Squares()(s) == s.prob * s.prob - 2.0 * (if s.hit == 1 then s.prob else 0.0) + if s.hit == 1 then 1.0 else 0.0
  {
    var y := s.hit as real;
    assert (s.prob - y) * (s.prob - y) == s.prob * s.prob - 2.0 * (s.prob * y) + y * y;
  }

  /** The Brier score is the mean of the squared errors, here expanded over the ups. */
  lemma BrierExpands(w: seq<Sample>)
    requires AllWellFormed(w) && |w| > 0
    ensures IsMean(Exact(w).brierScore, TotalSquare(w) - 2.0 * TotalOnUps(w) + Ups(w) as real, |w| as real)
  {
    PlainTotals(w);
    MeanTimesCount(SumOf(Squares(), w), |w| as real);
  }

  /** The drift is the distance of the two totals, averaged. */
  lemma DriftIsDistance(w: seq<Sample>)
    requires AllWellFormed(w) && |w| > 0
    ensures IsMean(Exact(w).confidenceDrift, Abs(TotalProb(w) - Ups(w) as real), |w| as real)
  {
    PlainTotals(w);
    DriftTimesCount(SumOf(Prob(), w), SumOf(Label(), w), |w| as real);
  }

  lemma DriftTimesCount(p: real, l: real, n: real)
    requires n > 0.0
    ensures IsMean(Abs(p / n - l / n), Abs(p - l), n)
  {
    var d := (p - l) / n;
    assert p / n - l / n == d;
    MeanTimesCount(p - l, n);
    assert Abs(d) == Abs(p - l) / n;
    MeanTimesCount(Abs(p - l), n);
  }

  /** The error of a sample of the first `k` bins, taken with the sign chosen for its bin. */
  function SignedError(plus: nat -> bool, k: nat, s: Sample): real {
    if WellFormed(s) && BinOf(s.prob) < k then
      if plus(BinOf(s.prob)) then s.prob - s.hit as real else s.hit as real - s.prob
    else 0.0
  }

  function SignedErrors(plus: nat -> bool, k: nat): Sample -> real {
    (s: Sample) => SignedError(plus, k, s)
  }

  function OneSign(plus: bool, k: nat): Sample -> real {
    (s: Sample) => if plus then BinErrors(k)(s) else -BinErrors(k)(s)
  }

  lemma SignedAt(plus: nat -> bool, k: nat, s: Sample)
    requires WellFormed(s) && k < BINS
    ensures SignedErrors(plus, k + 1)(s) == SignedErrors(plus, k)(s) + OneSign(plus(k), k)(s)
  {
    BinsPartition(s.prob, k);
    assert OneSign(plus(k), k)(s) == if plus(k) then BinErrors(k)(s) else -BinErrors(k)(s);
    assert BinOf(s.prob) == k ==> plus(BinOf(s.prob)) == plus(k);
  }

  lemma OneSignTotal(plus: bool, k: nat, w: seq<Sample>)
    ensures var t := SumOf(BinErrors(k), w); SumOf(OneSign(plus, k), w) == if plus then t else -t
  {
    SumOfScaled(BinErrors(k), OneSign(plus, k), if plus then 1.0 else -1.0, w);
  }

  lemma SignedSplit(plus: nat -> bool, k: nat, w: seq<Sample>)
    requires AllWellFormed(w) && k < BINS
    ensures var t := SumOf(BinErrors(k), w);
            SumOf(SignedErrors(plus, k + 1), w) == SumOf(SignedErrors(plus, k), w) + if plus(k) then t else -t
  {
    forall s <- w ensures SignedErrors(plus, k + 1)(s) == SignedErrors(plus, k)(s) + OneSign(plus(k), k)(s) {
      SignedAt(plus, k, s);
    }
    SumOfAdd(SignedErrors(plus, k), OneSign(plus(k), k), SignedErrors(plus, k + 1), w);
    OneSignTotal(plus(k), k, w);
  }

  lemma {:induction false} SignedWithin(plus: nat -> bool, k: nat, w: seq<Sample>)
    requires AllWellFormed(w) && k <= BINS
    ensures SumOf(SignedErrors(plus, k), w) <= GapsBelow(k, w)
    ensures (forall i: nat :: i < k ==> plus(i) == (SumOf(BinErrors(i), w) >= 0.0)) ==>
              SumOf(SignedErrors(plus, k), w) == GapsBelow(k, w)
  {
    if k == 0 {
      SumOfConstant(SignedErrors(plus, 0), 0.0, w);
    } else {
      SignedWithin(plus, k - 1, w);
      SignedSplit(plus, k - 1, w);
    }
  }

  /**
   The calibration error times the number of samples is the largest total of errors
   that any choice of one sign per bin can give: no choice gives more, and one gives it.
   */
  lemma EceIsBestSigns(w: seq<Sample>, plus: nat -> bool) returns (best: nat -> bool)
    requires AllWellFormed(w) && |w| > 0
    ensures SumOf(SignedErrors(plus, BINS), w) <= SumOf(SignedErrors(best, BINS), w)
    ensures IsMean(Exact(w).ece, SumOf(SignedErrors(best, BINS), w), |w| as real)
  {
    best := (i: nat) => SumOf(BinErrors(i), w) >= 0.0;
    SignedWithin(plus, BINS, w);
    SignedWithin(best, BINS, w);
    MeanTimesCount(GapsBelow(BINS, w), |w| as real);
  }

  /** Nothing observed, nothing reported; and otherwise each statistic is rounded on its own, and the count not at all. */
  lemma StatusTells(round: real -> real, w: seq<Sample>)
    ensures var s, e := Rounded(round, Exact(w)), Exact(w);
            && s.sampleCount == |w|
            && (|w| == 0 ==> s == CalibrationStatus(0, 0.0, 0.0, 0.0, 0.0))
            && (|w| > 0 ==>
                  && s.ece == round(e.ece) && s.brierScore == round(e.brierScore)
                  && s.hitRate == round(e.hitRate) && s.confidenceDrift == round(e.confidenceDrift))
  {
  }

  // ---------- the bounded window ----------

  function LastOf(s: seq<Sample>, n: nat): seq<Sample> {
    if |s| <= n then s else s[|s| - n..]
  }

  datatype Outcome = Outcome(probUp: real, realizedReturn: real)

  function Observe(o: Outcome): (s: Sample)
    ensures WellFormed(s)
  {
    Sample(Clamp(o.probUp, 0.0, 1.0), if o.realizedReturn > 0.0 then 1 else 0)
  }

  function Observed(os: seq<Outcome>): (s: seq<Sample>)
    ensures |s| == |os|
    ensures forall k :: 0 <= k < |os| ==> s[k] == Observe(os[k])
  {
    seq(|os|, k requires 0 <= k < |os| => Observe(os[k]))
  }

  /** Appending to a deque with a maximum length. */
  function Push(w: seq<Sample>, s: Sample, maxSamples: nat): seq<Sample> {
    LastOf(w + [s], maxSamples)
  }

  function WindowAfter(os: seq<Outcome>, maxSamples: nat): seq<Sample> {
    if |os| == 0 then [] else Push(WindowAfter(os[..|os| - 1], maxSamples), Observe(os[|os| - 1]), maxSamples)
  }

  /** Over any run of updates the window is exactly the last min(count, max) observations. */
  lemma {:induction false} WindowIsSuffix(os: seq<Outcome>, maxSamples: nat)
    ensures WindowAfter(os, maxSamples) == LastOf(Observed(os), maxSamples)
  {
    if |os| > 0 {
      var os', x := os[..|os| - 1], Observe(os[|os| - 1]);
      WindowIsSuffix(os', maxSamples);
      ObservedSnoc(os);
      calc {
        WindowAfter(os, maxSamples);
        Push(LastOf(Observed(os'), maxSamples), x, maxSamples);
        { PushOnSuffix(Observed(os'), x, maxSamples); }
        LastOf(Observed(os), maxSamples);
      }
    }
  }

  lemma ObservedSnoc(os: seq<Outcome>)
    requires |os| > 0
    ensures Observed(os) == Observed(os[..|os| - 1]) + [Observe(os[|os| - 1])]
  {
  }

  lemma PushOnSuffix(s: seq<Sample>, x: Sample, n: nat)
    ensures Push(LastOf(s, n), x, n) == LastOf(s + [x], n)
  {
  }

  /** A sample tells of an outcome: its probability brought into the unit interval, and one exactly for a positive return. */
  predicate Tells(s: Sample, o: Outcome) {
    && (s.hit == 1 <==> o.realizedReturn > 0.0) && (s.hit == 0 <==> o.realizedReturn <= 0.0)
    && (0.0 <= o.probUp <= 1.0 ==> s.prob == o.probUp)
    && (o.probUp < 0.0 ==> s.prob == 0.0) && (o.probUp > 1.0 ==> s.prob == 1.0)
  }

  /**
   So the window is within bounds, and each place in it tells of the outcome as far
   from the end of all of them.
   */
  lemma WindowWellFormed(os: seq<Outcome>, maxSamples: nat)
    ensures var w := WindowAfter(os, maxSamples);
            && |w| == (if |os| <= maxSamples then |os| else maxSamples)
            && AllWellFormed(w)
            && forall k :: 0 <= k < |w| ==> Tells(w[k], os[|os| - |w| + k])
  {
    WindowIsSuffix(os, maxSamples);
    forall o: Outcome ensures Tells(Observe(o), o) {
      ObserveTells(o);
    }
  }

  lemma ObserveTells(o: Outcome)
    ensures Tells(Observe(o), o)
  {
  }

  // ---------- the monitor ----------

  /** A bin of `m` samples with these totals, out of `n`: its share of the window times its gap of means. */
  method ShareTimesGap(p: real, l: real, m: real, n: real, ghost total: real) returns (gap: real)
    requires m > 0.0 && n > 0.0 && p - l == total
    ensures gap == Abs(total) / n
  {
    WeightedGap(p, l, m, n);
    gap := (m / n) * Abs(p / m - l / m);
  }

  class CalibrationMonitor {
    const maxSamples: nat
    const round: real -> real
    var pairs: seq<Sample>

    constructor (maxSamples: nat, round: real -> real)
      ensures this.maxSamples == maxSamples && this.round == round && pairs == []
    {
      this.maxSamples, this.round, pairs := maxSamples, round, [];
    }

    method Update(probUp: real, realizedReturn: real) returns (s: CalibrationStatus)
      modifies this
      ensures pairs == Push(old(pairs), Observe(Outcome(probUp, realizedReturn)), maxSamples)
      ensures s == Rounded(round, Exact(pairs))
    {
      var hit := if realizedReturn > 0.0 then 1 else 0;
      pairs := pairs + [Sample(Clamp(probUp, 0.0, 1.0), hit)];
      if |pairs| > maxSamples {
        pairs := pairs[|pairs| - maxSamples..];
      }
      s := Status();
    }

    /** One pass of the loop: nothing for an empty bin, else its share of the window times its gap of means. */
    method WeightedBinGap(idx: nat) returns (gap: real)
      requires |pairs| > 0
      ensures gap == Abs(SumOf(BinErrors(idx), pairs)) / |pairs| as real
    {
      var members := Members(idx, pairs);
      MembersSum(idx, pairs);
      if |members| == 0 {
        NoMembersNoGap(idx, pairs);
        return 0.0;
      }
      gap := ShareTimesGap(SumOf(Prob(), members), SumOf(Label(), members), |members| as real, |pairs| as real,
                           SumOf(BinErrors(idx), pairs));
    }

    /** `status`: ten passes over the window, one per bin. */
    method Status() returns (s: CalibrationStatus)
      ensures s == Rounded(round, Exact(pairs))
    {
      if |pairs| == 0 {
        return CalibrationStatus(0, 0.0, 0.0, 0.0, 0.0);
      }
      var ece := 0.0;
      for idx := 0 to BINS
        invariant ece == GapsBelow(idx, pairs) / |pairs| as real
      {
        var gap := WeightedBinGap(idx);
        ece := ece + gap;
        AddFractions(GapsBelow(idx, pairs), Abs(SumOf(BinErrors(idx), pairs)), |pairs| as real);
      }
      var brier := MeanOf(Squares(), pairs);
      var hitRate := MeanOf(Hits(), pairs);
      var drift := Abs(MeanOf(Prob(), pairs) - MeanOf(Label(), pairs));
      s := CalibrationStatus(|pairs|, round(ece), round(brier), round(hitRate), round(drift));
    }
  }

  /** A bin's share times its gap of means is its gap of totals over the whole count. */
  lemma WeightedGap(p: real, l: real, m: real, n: real)
    requires m > 0.0 && n > 0.0
    ensures (m / n) * Abs(p / m - l / m) == Abs(p - l) / n
  {
    var d := p / m - l / m;
    assert d * m == p - l;
    assert d >= 0.0 <==> p - l >= 0.0 by {
      if d > 0.0 { assert d * m > 0.0; }
      if d < 0.0 { assert -d * m > 0.0; assert -d * m == -(d * m); }
    }
    assert Abs(d) * m == Abs(p - l) by {
      assert -d * m == -(d * m);
    }
    assert (m / n) * Abs(d) == (Abs(d) * m) / n;
  }

  lemma AddFractions(x: real, y: real, n: real)
    requires n != 0.0
    ensures x / n + y / n == (x + y) / n
  {
  }
}
