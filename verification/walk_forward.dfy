/**
 `_WalkForwardValidator` (src/quant_platform/ml_decision_support.py): the loop
 that lays out walk-forward folds, its closed form, and when it ends at all.
 */
module WalkForward {
  import opened Sums
  import Calibration

  datatype Fold = Fold(
    fold: nat,
    trainStart: int,
    trainEnd: int,
    testStart: int,
    testEnd: int,
    hitRate: real,
    brierScore: real)

  datatype Report = Report(
    folds: seq<Fold>,
    aggregateHitRate: real,
    aggregateBrierScore: real,
    purge: int,
    embargo: int,
    foldSize: int)

  datatype Result = Ok(report: Report) | ValueError(message: string)

  function MinInt(x: int, y: int): int {
    if x <= y then x else y
  }

  function MaxInt(x: int, y: int): int {
    if x >= y then x else y
  }

  // ---------- the closed form ----------

  /** Where the k-th test window starts, counting from one. */
  function StartOf(k: int, foldSize: int, embargo: int): int {
    foldSize + (k - 1) * (foldSize + embargo)
  }

  function CeilDiv(a: int, b: int): int
    requires b > 0
  {
    (a + b - 1) / b
  }

  function FoldCount(n: nat, foldSize: int, embargo: int): nat
    requires foldSize >= 5 && (embargo >= 0 || n <= foldSize)
  {
    if n <= foldSize then 0 else
      CeilPositive(n - foldSize, foldSize + embargo);
      CeilDiv(n - foldSize, foldSize + embargo)
  }

  lemma CeilPositive(a: int, b: int)
    requires a > 0 && b > 0
    ensures CeilDiv(a, b) >= 1
    ensures (CeilDiv(a, b) - 1) * b < a <= CeilDiv(a, b) * b
  {
    var q := (a + b - 1) / b;
    assert a + b - 1 == q * b + (a + b - 1) % b;
    if q <= 0 {
      Scale(q, 0, b);
    }
  }

  lemma Scale(x: int, y: int, b: int)
    requires x <= y && b > 0
    ensures x * b <= y * b
  {
  }

  lemma CeilUnique(a: int, b: int, m: int)
    requires a > 0 && b > 0 && (m - 1) * b < a <= m * b
    ensures m == CeilDiv(a, b)
  {
    CeilPositive(a, b);
    var q := CeilDiv(a, b);
    if m < q {
      Scale(m, q - 1, b);
    } else if q < m {
      Scale(q, m - 1, b);
    }
  }

  function Zip(predictions: seq<real>, realized: seq<real>): seq<Calibration.Sample>
    requires |predictions| == |realized|
  {
    seq(|predictions|, k requires 0 <= k < |predictions| =>
      Calibration.Sample(predictions[k], if realized[k] > 0.0 then 1 else 0))
  }

  function FoldOver(round: real -> real, predictions: seq<real>, realized: seq<real>, k: nat,
                    trainEnd: int, testStart: int, testEnd: int): Fold
    requires |predictions| == |realized| && 0 <= testStart < testEnd <= |predictions|
  {
    var test := Zip(predictions[testStart..testEnd], realized[testStart..testEnd]);
    Fold(k, 0, trainEnd, testStart, testEnd,
         round(Calibration.MeanOf(Calibration.Hits(), test)), round(Calibration.MeanOf(Calibration.Squares(), test)))
  }

  /** The k-th fold, written without the loop. */
  ghost predicate IsFold(f: Fold, round: real -> real, predictions: seq<real>, realized: seq<real>,
                         k: nat, foldSize: int, purge: int, embargo: int)
    requires |predictions| == |realized|
  {
    var n, start := |predictions|, StartOf(k, foldSize, embargo);
    && 0 <= start < n && foldSize > 0
    && f == FoldOver(round, predictions, realized, k, MaxInt(0, start - purge), start, MinInt(n, start + foldSize))
  }

  ghost predicate AreFolds(folds: seq<Fold>, round: real -> real, predictions: seq<real>, realized: seq<real>,
                           foldSize: int, purge: int, embargo: int)
    requires |predictions| == |realized|
  {
    forall i :: 0 <= i < |folds| ==> IsFold(folds[i], round, predictions, realized, i + 1, foldSize, purge, embargo)
  }

  lemma ExtendFolds(folds: seq<Fold>, f: Fold, round: real -> real, predictions: seq<real>, realized: seq<real>,
                    foldSize: int, purge: int, embargo: int)
    requires |predictions| == |realized|
    requires AreFolds(folds, round, predictions, realized, foldSize, purge, embargo)
    requires IsFold(f, round, predictions, realized, |folds| + 1, foldSize, purge, embargo)
    ensures AreFolds(folds + [f], round, predictions, realized, foldSize, purge, embargo)
  {
  }

  lemma StartSuccessor(k: int, foldSize: int, embargo: int)
    ensures StartOf(k + 1, foldSize, embargo) == StartOf(k, foldSize, embargo) + foldSize + embargo
    ensures StartOf(1, foldSize, embargo) == foldSize
  {
    var step := foldSize + embargo;
    assert k * step == (k - 1) * step + step;
  }

  function HitRates(): Fold -> real { (f: Fold) => f.hitRate }

  function BrierScores(): Fold -> real { (f: Fold) => f.brierScore }

  function MeanOver(g: Fold -> real, folds: seq<Fold>): real {
    if |folds| == 0 then 0.0 else SumOf(g, folds) / |folds| as real
  }

  /**
   `_WalkForwardValidator.evaluate`. The precondition shuts out exactly the inputs
   on which the loop is reached and never ends; see RunsForeverIff.
   */
  method Evaluate(round: real -> real, predictions: seq<real>, realized: seq<real>,
                  foldSize: int, purge: int, embargo: int)
    returns (r: Result)
    requires |predictions| == |realized| && foldSize >= 5 ==> embargo >= 0 || |predictions| <= foldSize
    ensures r.Ok? <==> |predictions| == |realized| && foldSize >= 5
    ensures r.Ok? ==>
              && AreFolds(r.report.folds, round, predictions, realized, foldSize, purge, embargo)
              && |r.report.folds| == FoldCount(|predictions|, foldSize, embargo)
              && r.report.aggregateHitRate == round(MeanOver(HitRates(), r.report.folds))
              && r.report.aggregateBrierScore == round(MeanOver(BrierScores(), r.report.folds))
              && r.report.purge == purge && r.report.embargo == embargo && r.report.foldSize == foldSize
  {
    if |predictions| != |realized| {
      return ValueError("predictions and realized_returns must have equal length");
    }
    if foldSize < 5 {
      return ValueError("fold_size must be >= 5");
    }
    var n := |predictions|;
    var folds: seq<Fold> := [];
    var idx := foldSize;
    var fold := 1;
    StartSuccessor(0, foldSize, embargo);
    while idx < n
      invariant fold == |folds| + 1
      invariant AreFolds(folds, round, predictions, realized, foldSize, purge, embargo)
      invariant OnTrack(n, |folds|, idx, foldSize, embargo)
      invariant |folds| > 0 ==> embargo >= 0
      decreases n - idx
    {
      var testStart := idx;
      var testEnd := MinInt(n, idx + foldSize);
      var trainEnd := MaxInt(0, testStart - purge);
      var f := FoldOver(round, predictions, realized, fold, trainEnd, testStart, testEnd);
      ExtendFolds(folds, f, round, predictions, realized, foldSize, purge, embargo);
      StaysOnTrack(n, |folds|, idx, foldSize, embargo);
      folds := folds + [f];
      fold := fold + 1;
      idx := testEnd + embargo;
    }
    CountOnExit(n, |folds|, idx, foldSize, embargo);
    r := Ok(Report(folds, round(MeanOver(HitRates(), folds)), round(MeanOver(BrierScores(), folds)), purge, embargo, foldSize));
  }

  /** After `m` folds `idx` stands at the start of the next one, or past the end because the m-th reached it. */
  ghost predicate OnTrack(n: nat, m: nat, idx: int, foldSize: int, embargo: int) {
    && idx >= foldSize
    && (idx < n ==> idx == StartOf(m + 1, foldSize, embargo))
    && (m == 0 ==> idx == foldSize)
    && (m > 0 && idx >= n ==> StartOf(m, foldSize, embargo) < n <= StartOf(m + 1, foldSize, embargo))
  }

  lemma StaysOnTrack(n: nat, m: nat, idx: int, foldSize: int, embargo: int)
    requires OnTrack(n, m, idx, foldSize, embargo) && idx < n && foldSize >= 5 && embargo >= 0
    ensures OnTrack(n, m + 1, MinInt(n, idx + foldSize) + embargo, foldSize, embargo)
  {
    StartSuccessor(m + 1, foldSize, embargo);
  }

  lemma CountOnExit(n: nat, m: nat, idx: int, foldSize: int, embargo: int)
    requires foldSize >= 5 && (embargo >= 0 || n <= foldSize)
    requires OnTrack(n, m, idx, foldSize, embargo) && idx >= n
    requires m > 0 ==> embargo >= 0
    ensures m == FoldCount(n, foldSize, embargo)
  {
    if m > 0 {
      var step := foldSize + embargo;
      Scale(0, m - 1, step);
      CeilUnique(n - foldSize, step, m);
    }
  }

  /** `walk_forward_validate`: the caller clamps, so every input is answered. */
  method WalkForwardValidate(round: real -> real, predictions: seq<real>, realized: seq<real>,
                             foldSize: int, purge: int, embargo: int)
    returns (r: Result)
    ensures r.Ok? <==> |predictions| == |realized| && foldSize >= 5
    ensures r.Ok? ==>
              && AreFolds(r.report.folds, round, predictions, realized, foldSize, MaxInt(0, purge), MaxInt(0, embargo))
              && |r.report.folds| == FoldCount(|predictions|, foldSize, MaxInt(0, embargo))
              && r.report.aggregateHitRate == round(MeanOver(HitRates(), r.report.folds))
              && r.report.aggregateBrierScore == round(MeanOver(BrierScores(), r.report.folds))
              && r.report.purge == (if purge < 0 then 0 else purge) && r.report.embargo == (if embargo < 0 then 0 else embargo)
              && r.report.foldSize == foldSize
  {
    r := Evaluate(round, predictions, realized, foldSize, MaxInt(0, purge), MaxInt(0, embargo));
  }

  // ---------- what the closed form means ----------

  /**
   Test windows are nonempty and disjoint, consecutive ones are `embargo` apart,
   all but the last are full, the last reaches to within an embargo of the end,
   and training stops `purge` before its test window unless floored at zero.
   */
  lemma FoldLayout(folds: seq<Fold>, round: real -> real, predictions: seq<real>, realized: seq<real>,
                   foldSize: int, purge: int, embargo: int, i: nat)
    requires |predictions| == |realized| && foldSize >= 5 && purge >= 0 && embargo >= 0
    requires AreFolds(folds, round, predictions, realized, foldSize, purge, embargo)
    requires |folds| == FoldCount(|predictions|, foldSize, embargo)
    requires i < |folds|
    ensures var f, n := folds[i], |predictions|;
            && f.fold == i + 1 && foldSize <= f.testStart < f.testEnd <= n
            && f.trainStart == 0 <= f.trainEnd <= f.testStart
            && (f.trainEnd == f.testStart - purge || (f.trainEnd == 0 && f.testStart < purge))
            && (i + 1 < |folds| ==>
                  f.testEnd == f.testStart + foldSize && folds[i + 1].testStart == f.testEnd + embargo)
            && (i + 1 == |folds| ==> n <= f.testEnd + embargo)
  {
    var n := |predictions|;
    assert IsFold(folds[i], round, predictions, realized, i + 1, foldSize, purge, embargo);
    StartSuccessor(i + 1, foldSize, embargo);
    StartAtLeast(i, foldSize, embargo);
    if i + 1 < |folds| {
      assert IsFold(folds[i + 1], round, predictions, realized, i + 2, foldSize, purge, embargo);
    } else {
      LastReaches(n, foldSize, embargo);
    }
  }

  lemma StartAtLeast(i: nat, foldSize: int, embargo: int)
    requires foldSize >= 5 && embargo >= 0
    ensures StartOf(i + 1, foldSize, embargo) >= foldSize
  {
    Scale(0, i, foldSize + embargo);
  }

  lemma LastReaches(n: nat, foldSize: int, embargo: int)
    requires foldSize >= 5 && embargo >= 0 && n > foldSize
    ensures n <= StartOf(FoldCount(n, foldSize, embargo) + 1, foldSize, embargo)
  {
    CeilPositive(n - foldSize, foldSize + embargo);
  }

  lemma StartsApart(k: int, l: int, foldSize: int, embargo: int)
    requires k < l && foldSize + embargo > 0
    ensures StartOf(k, foldSize, embargo) + foldSize + embargo <= StartOf(l, foldSize, embargo)
  {
    Scale(k, l - 1, foldSize + embargo);
    StartSuccessor(k, foldSize, embargo);
  }

  /** Two different folds never test the same index. */
  lemma TestsAreDisjoint(folds: seq<Fold>, round: real -> real, predictions: seq<real>, realized: seq<real>,
                         foldSize: int, purge: int, embargo: int, i: nat, j: nat)
    requires |predictions| == |realized| && foldSize >= 5 && embargo >= 0
    requires AreFolds(folds, round, predictions, realized, foldSize, purge, embargo)
    requires i < j < |folds|
    ensures folds[i].testEnd + embargo <= folds[j].testStart
  {
    assert IsFold(folds[i], round, predictions, realized, i + 1, foldSize, purge, embargo);
    assert IsFold(folds[j], round, predictions, realized, j + 1, foldSize, purge, embargo);
    StartsApart(i + 1, j + 1, foldSize, embargo);
  }

  // ---------- what a fold reports ----------

  /** The positions of a test window where the more likely side is the one that came about. */
  function FoldHits(predictions: seq<real>, realized: seq<real>, lo: nat, hi: nat): set<nat>
    requires lo <= hi <= |predictions| == |realized|
  {
    var p, y := predictions[lo..hi], realized[lo..hi];
    set k: nat | k < |p| && ((p[k] >= 0.5 && y[k] > 0.0) || (p[k] < 0.5 && y[k] <= 0.0))
  }

  /** The squared distances of the predictions of a test window from what came about. */
  function FoldMisses(predictions: seq<real>, realized: seq<real>, lo: nat, hi: nat): real
    requires lo <= hi <= |predictions| == |realized|
  {
    if lo == hi then 0.0
    else
      var miss := predictions[hi - 1] - if realized[hi - 1] > 0.0 then 1.0 else 0.0;
      FoldMisses(predictions, realized, lo, hi - 1) + miss * miss
  }

  lemma ZipCounts(predictions: seq<real>, realized: seq<real>, lo: nat, hi: nat)
    requires lo < hi <= |predictions| == |realized|
    ensures SumOf(Calibration.Hits(), Zip(predictions[lo..hi], realized[lo..hi]))
         == |FoldHits(predictions, realized, lo, hi)| as real
  {
    var test := Zip(predictions[lo..hi], realized[lo..hi]);
    SumCounts(Calibration.Hits(), test);
    assert Ones(Calibration.Hits(), test) == FoldHits(predictions, realized, lo, hi);
  }

  lemma {:induction false} ZipMisses(predictions: seq<real>, realized: seq<real>, lo: nat, hi: nat)
    requires lo <= hi <= |predictions| == |realized|
    ensures SumOf(Calibration.Squares(), Zip(predictions[lo..hi], realized[lo..hi])) == FoldMisses(predictions, realized, lo, hi)
  {
    if lo < hi {
      ZipMisses(predictions, realized, lo, hi - 1);
      var test := Zip(predictions[lo..hi], realized[lo..hi]);
      assert test[..|test| - 1] == Zip(predictions[lo..hi - 1], realized[lo..hi - 1]);
      assert test[|test| - 1] == Calibration.Sample(predictions[hi - 1], if realized[hi - 1] > 0.0 then 1 else 0);
    }
  }

  /** Before rounding, the hit rate of a fold counts its hits, and its Brier score averages its squared misses. */
  lemma FoldScores(f: Fold, round: real -> real, predictions: seq<real>, realized: seq<real>,
                   k: nat, foldSize: int, purge: int, embargo: int)
    returns (hitRate: real, brier: real)
    requires |predictions| == |realized| && IsFold(f, round, predictions, realized, k, foldSize, purge, embargo)
    ensures 0 <= f.testStart < f.testEnd <= |predictions|
    ensures f.hitRate == round(hitRate) && f.brierScore == round(brier)
    ensures var n := (f.testEnd - f.testStart) as real;
            && Calibration.IsMean(hitRate, |FoldHits(predictions, realized, f.testStart, f.testEnd)| as real, n)
            && Calibration.IsMean(brier, FoldMisses(predictions, realized, f.testStart, f.testEnd), n)
  {
    var lo, hi := f.testStart, f.testEnd;
    var test := Zip(predictions[lo..hi], realized[lo..hi]);
    hitRate := Calibration.MeanOf(Calibration.Hits(), test);
    brier := Calibration.MeanOf(Calibration.Squares(), test);
    ZipCounts(predictions, realized, lo, hi);
    ZipMisses(predictions, realized, lo, hi);
    Calibration.MeanTimesCount(SumOf(Calibration.Hits(), test), |test| as real);
    Calibration.MeanTimesCount(SumOf(Calibration.Squares(), test), |test| as real);
  }

  function TotalHitRate(folds: seq<Fold>): real {
    if |folds| == 0 then 0.0 else TotalHitRate(folds[..|folds| - 1]) + folds[|folds| - 1].hitRate
  }

  function TotalBrier(folds: seq<Fold>): real {
    if |folds| == 0 then 0.0 else TotalBrier(folds[..|folds| - 1]) + folds[|folds| - 1].brierScore
  }

  lemma {:induction false} PlainTotals(folds: seq<Fold>)
    ensures SumOf(HitRates(), folds) == TotalHitRate(folds) && SumOf(BrierScores(), folds) == TotalBrier(folds)
  {
    if |folds| > 0 {
      PlainTotals(folds[..|folds| - 1]);
    }
  }

  /** The two aggregates are the means of the folds' own scores; zero without folds. */
  lemma AggregatesAreMeans(folds: seq<Fold>)
    ensures Calibration.IsMean(MeanOver(HitRates(), folds), TotalHitRate(folds), |folds| as real)
    ensures Calibration.IsMean(MeanOver(BrierScores(), folds), TotalBrier(folds), |folds| as real)
    ensures |folds| == 0 ==> MeanOver(HitRates(), folds) == 0.0 == MeanOver(BrierScores(), folds)
  {
    PlainTotals(folds);
    if |folds| > 0 {
      Calibration.MeanTimesCount(SumOf(HitRates(), folds), |folds| as real);
      Calibration.MeanTimesCount(SumOf(BrierScores(), folds), |folds| as real);
    }
  }

  // ---------- termination ----------

  /** The value of `idx` at the k-th test of the loop guard. */
  function IdxAt(n: nat, foldSize: int, embargo: int, k: nat): int {
    if k == 0 then foldSize else MinInt(n, IdxAt(n, foldSize, embargo, k - 1) + foldSize) + embargo
  }

  lemma {:induction false} NegativeEmbargoStays(n: nat, foldSize: int, embargo: int, k: nat)
    requires foldSize < n && embargo < 0
    ensures IdxAt(n, foldSize, embargo, k) < n
  {
    if k > 0 {
      NegativeEmbargoStays(n, foldSize, embargo, k - 1);
    }
  }

  lemma {:induction false} IdxAdvances(n: nat, foldSize: int, embargo: int, k: nat)
    requires foldSize >= 5 && embargo >= 0
    ensures IdxAt(n, foldSize, embargo, k) >= MinInt(n, k)
  {
    if k > 0 {
      IdxAdvances(n, foldSize, embargo, k - 1);
    }
  }

  /** Left to itself the loop never ends exactly when there is a fold to lay out and the embargo is negative. */
  lemma RunsForeverIff(n: nat, foldSize: int, embargo: int)
    requires foldSize >= 5
    ensures (forall k :: k >= 0 ==> IdxAt(n, foldSize, embargo, k) < n) <==> foldSize < n && embargo < 0
  {
    if foldSize < n && embargo < 0 {
      forall k | k >= 0 ensures IdxAt(n, foldSize, embargo, k) < n {
        NegativeEmbargoStays(n, foldSize, embargo, k);
      }
    } else if embargo >= 0 {
      IdxAdvances(n, foldSize, embargo, n);
      assert !(IdxAt(n, foldSize, embargo, n) < n);
    } else {
      assert !(IdxAt(n, foldSize, embargo, 0) < n);
    }
  }
}
