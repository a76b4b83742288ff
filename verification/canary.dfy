/**
 The automated canary gate (src/quant_platform/canary.py): the two-sided
 Mann-Whitney p-value and the three-way decision it feeds.
 */
module Canary {
  import opened Common
  import opened Sums
  import opened MannWhitney

  /** The two library functions the p-value needs, known only by what it relies on. */
  datatype SpecialFunctions = SpecialFunctions(sqrt: real -> real, erfc: real -> real) {
    ghost predicate Sound() {
      && (forall x: real :: x > 0.0 ==> sqrt(x) > 0.0 && sqrt(x) * sqrt(x) == x)
      && erfc(0.0) == 1.0
    }

    /** The values on the half line the p-value reads. */
    ghost predicate InUnit() {
      forall x: real :: x >= 0.0 ==> 0.0 <= erfc(x) <= 1.0
    }

    ghost predicate Decreasing() {
      forall x: real, y: real :: 0.0 <= x < y ==> erfc(y) < erfc(x)
    }
  }

  /** Python's stable `sort(key=value)`: an entry goes after those not above it. */
  function InsertByValue(p: seq<Entry>, e: Entry): (r: seq<Entry>)
    ensures multiset(r) == multiset(p) + multiset{e}
  {
    if |p| == 0 || p[|p| - 1].value <= e.value then
      p + [e]
    else
      assert p == p[..|p| - 1] + [p[|p| - 1]];
      InsertByValue(p[..|p| - 1], e) + [p[|p| - 1]]
  }

  function SortByValue(p: seq<Entry>): (r: seq<Entry>)
    ensures multiset(r) == multiset(p)
  {
    if |p| == 0 then []
    else
      assert p == p[..|p| - 1] + [p[|p| - 1]];
      InsertByValue(SortByValue(p[..|p| - 1]), p[|p| - 1])
  }

  lemma {:induction false} InsertKeepsSorted(p: seq<Entry>, e: Entry)
    requires SortedByValue(p)
    ensures SortedByValue(InsertByValue(p, e))
  {
    if |p| > 0 && p[|p| - 1].value > e.value {
      var p', last := p[..|p| - 1], p[|p| - 1];
      InsertKeepsSorted(p', e);
      var r := InsertByValue(p', e);
      forall k | 0 <= k < |r| ensures r[k].value <= last.value {
        assert r[k] in multiset(p') + multiset{e};
      }
    }
  }

  lemma {:induction false} SortSorts(p: seq<Entry>)
    ensures SortedByValue(SortByValue(p))
  {
    if |p| > 0 {
      SortSorts(p[..|p| - 1]);
      InsertKeepsSorted(SortByValue(p[..|p| - 1]), p[|p| - 1]);
    }
  }

  function ZScore(num: SpecialFunctions, u: real, n1: nat, n2: nat, variance: real): real
    requires num.Sound() && variance > 0.0
  {
    (u - n1 as real * n2 as real / 2.0) / num.sqrt(variance)
  }

  function TwoSided(num: SpecialFunctions, z: real): real
    requires num.Sound()
  {
    Max(0.0, Min(1.0, num.erfc(Abs(z) / num.sqrt(2.0))))
  }

  /** The p-value by definition: U counted over all pairs, ties taken element by element. */
  function PValue(num: SpecialFunctions, a: seq<real>, b: seq<real>): real
    requires num.Sound()
  {
    if |a| == 0 || |b| == 0 then 1.0
    else
      var variance := VarianceU(|a|, |b|, TieTerm(a + b));
      if variance <= 0.0 then 1.0
      else TwoSided(num, ZScore(num, PairScore(a, b), |a|, |b|, variance))
  }

  /**
   `mann_whitney_u_pvalue`: pool, sort, rank, sum the ranks of sample a, count
   the ties in a dictionary kept in insertion order. The test `n <= 1` of the
   source is not written: both samples are nonempty where it stands.
   */
  method MannWhitneyUPvalue(num: SpecialFunctions, sampleA: seq<real>, sampleB: seq<real>) returns (p: real)
    requires num.Sound()
    ensures p == PValue(num, sampleA, sampleB)
  {
    if |sampleA| == 0 || |sampleB| == 0 {
      return 1.0;
    }
    var u1, tieTerm := PooledStatistics(sampleA, sampleB);
    var variance := VarianceU(|sampleA|, |sampleB|, tieTerm);
    if variance <= 0.0 {
      return 1.0;
    }
    p := TwoSided(num, ZScore(num, u1, |sampleA|, |sampleB|, variance));
  }

  /** The ranking half of it: U from mid-ranks and the tie term from the dictionary. */
  method PooledStatistics(sampleA: seq<real>, sampleB: seq<real>) returns (u1: real, tieTerm: real)
    ensures u1 == PairScore(sampleA, sampleB)
    ensures tieTerm == TieTerm(sampleA + sampleB)
  {
    var pooled := SortByValue(Tag(sampleA, 0) + Tag(sampleB, 1));
    SortSorts(Tag(sampleA, 0) + Tag(sampleB, 1));
    var ranks := Rank(pooled);
    var rankSumA := SumRanksOfA(pooled, ranks);
    u1 := rankSumA - |sampleA| as real * (|sampleA| as real + 1.0) / 2.0;
    tieTerm := CountTies(pooled);
    RankSumGivesU(sampleA, sampleB, pooled);
    TieTermPermutation(Values(pooled), sampleA + sampleB);
  }

  /** The rank sum of sample a: the ranks at the positions tagged 0. */
  method SumRanksOfA(pooled: seq<Entry>, ranks: seq<real>) returns (sum: real)
    requires |ranks| == |pooled|
    requires forall k :: 0 <= k < |pooled| ==> ranks[k] == MidRank(Values(pooled), pooled[k].value)
    ensures sum == RankSum(pooled, 0)
  {
    ghost var f := RankFn(Values(pooled), 0);
    sum := 0.0;
    for k := 0 to |pooled|
      invariant sum == SumOf(f, pooled[..k])
    {
      assert pooled[..k + 1] == pooled[..k] + [pooled[k]];
      SumOfSnoc(f, pooled[..k], pooled[k]);
      if pooled[k].group == 0 {
        sum := sum + ranks[k];
      }
    }
    assert pooled[..|pooled|] == pooled;
  }

  /** The `tie_counts` dictionary and the sum over its values. */
  method CountTies(pooled: seq<Entry>) returns (tieTerm: real)
    ensures tieTerm == TieTerm(Values(pooled))
  {
    ghost var vs := Values(pooled);
    var keys: seq<real>, counts: map<real, int> := [], map[];
    for k := 0 to |pooled|
      invariant Distinct(keys)
      invariant forall v :: v in keys <==> v in counts
      invariant forall v :: v in counts <==> v in vs[..k]
      invariant forall v <- keys :: counts[v] == Equal(vs[..k], v)
    {
      var v := pooled[k].value;
      assert vs[..k + 1] == vs[..k] + [v];
      if v !in counts {
        keys := keys + [v];
      }
      counts := counts[v := (if v in counts then counts[v] else 0) + 1];
    }
    assert vs[..|pooled|] == vs;
    tieTerm := 0.0;
    for k := 0 to |keys|
      invariant tieTerm == SumOf(GroupFn(vs), keys[..k])
    {
      assert keys[..k + 1] == keys[..k] + [keys[k]];
      SumOfSnoc(GroupFn(vs), keys[..k], keys[k]);
      var count := counts[keys[k]] as real;
      tieTerm := tieTerm + (Cube(count) - count);
    }
    assert keys[..|keys|] == keys;
    TieTermByGroups(vs, keys);
  }

  /** The p-value does not see the order of either sample. */
  lemma PValuePermutation(num: SpecialFunctions, a: seq<real>, a': seq<real>, b: seq<real>, b': seq<real>)
    requires num.Sound()
    requires multiset(a) == multiset(a') && multiset(b) == multiset(b')
    ensures PValue(num, a, b) == PValue(num, a', b')
  {
    assert |a| == |multiset(a)| == |a'| && |b| == |multiset(b)| == |b'|;
    PairScorePermutation(a, a', b, b');
    assert multiset(a + b) == multiset(a' + b');
    TieTermPermutation(a + b, a' + b');
  }

  /** Nor which sample came first: exchanging them only turns the sign of z. */
  lemma PValueSwap(num: SpecialFunctions, a: seq<real>, b: seq<real>)
    requires num.Sound()
    ensures PValue(num, a, b) == PValue(num, b, a)
  {
    assert multiset(a + b) == multiset(b + a);
    TieTermPermutation(a + b, b + a);
    UStatisticsAreComplementary(a, b);
    if |a| > 0 && |b| > 0 {
      var variance := VarianceU(|a|, |b|, TieTerm(a + b));
      VarianceSwap(|a|, |b|, TieTerm(a + b));
      if variance > 0.0 {
        ZSwap(PairScore(a, b), PairScore(b, a), |a| as real * |b| as real, num.sqrt(variance));
      }
    }
  }

  lemma VarianceSwap(n1: nat, n2: nat, t: real)
    requires n1 >= 1 && n2 >= 1
    ensures VarianceU(n1, n2, t) == VarianceU(n2, n1, t)
  {
    assert n1 as real * n2 as real == n2 as real * n1 as real;
    assert n1 + n2 == n2 + n1;
  }

  lemma ZSwap(u: real, w: real, product: real, s: real)
    requires s > 0.0 && u + w == product
    ensures Abs((u - product / 2.0) / s) == Abs((w - product / 2.0) / s)
  {
    var x := u - product / 2.0;
    assert w - product / 2.0 == -x;
    assert -x / s == -(x / s);
  }

  // ---------- what the p-value is ----------

  /** How far U lies from its mean. */
  function Deviation(a: seq<real>, b: seq<real>): real {
    PairScore(a, b) - |a| as real * |b| as real / 2.0
  }

  /** The tie-corrected variance of U, cleared of its divisions. */
  predicate IsVariance(v: real, n1: real, n2: real, tieTerm: real) {
    var n := n1 + n2;
    12.0 * (n * (n - 1.0)) * v == (n1 * n2) * ((n + 1.0) * (n * (n - 1.0)) - tieTerm)
  }

  /** The size of a deviation `d` in units of the standard deviation. */
  predicate IsScore(z: real, d: real, v: real) {
    z >= 0.0 && z * z * v == d * d
  }

  /** No degenerate pool has evidence in it. */
  lemma PValueDegenerate(num: SpecialFunctions, a: seq<real>, b: seq<real>)
    requires num.Sound() && (|a| == 0 || |b| == 0 || AllEqual(a + b))
    ensures PValue(num, a, b) == 1.0
  {
    if |a| > 0 && |b| > 0 {
      VarianceSign(a, b);
    }
  }

  /**
   On every other pool the p-value is the complementary error function of the size of
   U's deviation over its tie-corrected standard deviation, by the square root of two.
   */
  lemma PValueMeans(num: SpecialFunctions, a: seq<real>, b: seq<real>) returns (v: real, z: real)
    requires num.Sound() && num.InUnit()
    requires |a| >= 1 && |b| >= 1 && !AllEqual(a + b)
    ensures v > 0.0 && IsVariance(v, |a| as real, |b| as real, TieTerm(a + b))
    ensures IsScore(z, Deviation(a, b), v)
    ensures PValue(num, a, b) == num.erfc(z / num.sqrt(2.0))
  {
    v := VarianceU(|a|, |b|, TieTerm(a + b));
    VarianceSign(a, b);
    VarianceIsVariance(|a|, |b|, TieTerm(a + b));
    z := ScoreOf(num, Deviation(a, b), v);
    assert PValue(num, a, b) == TwoSided(num, ZScore(num, PairScore(a, b), |a|, |b|, v));
    assert ZScore(num, PairScore(a, b), |a|, |b|, v) == Deviation(a, b) / num.sqrt(v);
  }

  lemma VarianceIsVariance(n1: nat, n2: nat, t: real)
    requires n1 >= 1 && n2 >= 1
    ensures IsVariance(VarianceU(n1, n2, t), n1 as real, n2 as real, t)
  {
    VarianceEquation(n1, n2, t);
    assert (n1 + n2) as real == n1 as real + n2 as real;
  }

  lemma ScoreOf(num: SpecialFunctions, d: real, v: real) returns (z: real)
    requires num.Sound() && num.InUnit() && v > 0.0
    ensures IsScore(z, d, v)
    ensures TwoSided(num, d / num.sqrt(v)) == num.erfc(z / num.sqrt(2.0))
  {
    z := Abs(d / num.sqrt(v));
    SquareOfRatio(d, num.sqrt(v), v);
    NotNegative(z, num.sqrt(2.0));
  }

  lemma NotNegative(x: real, s: real)
    requires x >= 0.0 && s > 0.0
    ensures x / s >= 0.0
    ensures x > 0.0 ==> x / s > 0.0
  {
  }

  lemma SquareOfRatio(x: real, s: real, v: real)
    requires s > 0.0 && s * s == v
    ensures Abs(x / s) * Abs(x / s) * v == x * x
  {
    var q := x / s;
    assert q * s == x;
    assert Abs(q) * Abs(q) == q * q;
    assert q * q * (s * s) == (q * s) * (q * s);
  }

  lemma Positive(x: real, y: real)
    requires x > 0.0 && y > 0.0
    ensures x * y > 0.0
  {
  }

  lemma SquareGrows(x: real, y: real)
    requires 0.0 <= x < y
    ensures x * x < y * y
  {
    Positive(y, y - x);
    assert y * (y - x) == y * y - y * x;
    assert y * x - x * x == x * (y - x) >= 0.0;
  }

  /** At one variance the score orders as the deviation does. */
  lemma ScoresOrder(z: real, d: real, z': real, d': real, v: real)
    requires v > 0.0 && IsScore(z, d, v) && IsScore(z', d', v)
    ensures z < z' <==> Abs(d) < Abs(d')
  {
    SquareOfAbs(d);
    SquareOfAbs(d');
    ScoreRises(z, Abs(d), z', Abs(d'), v);
    ScoreRises(z', Abs(d'), z, Abs(d), v);
  }

  lemma SquareOfAbs(d: real)
    ensures Abs(d) * Abs(d) == d * d
  {
  }

  lemma ScoreRises(z: real, d: real, z': real, d': real, v: real)
    requires v > 0.0 && d >= 0.0 && d' >= 0.0 && IsScore(z, d, v) && IsScore(z', d', v)
    ensures z < z' ==> d < d'
    ensures z == z' ==> d == d'
  {
    if z < z' {
      SquareGrows(z, z');
      Positive(z' * z' - z * z, v);
      assert (z' * z' - z * z) * v == d' * d' - d * d;
      if d > d' {
        SquareGrows(d', d);
      }
    } else if z == z' {
      if d < d' {
        SquareGrows(d, d');
      } else if d' < d {
        SquareGrows(d', d);
      }
    }
  }

  /** A p-value of one means U is at its mean. */
  lemma PValueOneIff(num: SpecialFunctions, a: seq<real>, b: seq<real>)
    requires num.Sound() && num.InUnit() && num.Decreasing()
    requires |a| >= 1 && |b| >= 1 && !AllEqual(a + b)
    ensures PValue(num, a, b) == 1.0 <==> PairScore(a, b) == |a| as real * |b| as real / 2.0
  {
    var v, z := PValueMeans(num, a, b);
    ScoresOrder(0.0, 0.0, z, Deviation(a, b), v);
    NotNegative(z, num.sqrt(2.0));
    assert z == 0.0 ==> z / num.sqrt(2.0) == 0.0;
  }

  /** At equal sizes and equal ties, the pair of samples whose U lies farther from its mean has the smaller p-value. */
  lemma PValueOrders(num: SpecialFunctions, a: seq<real>, b: seq<real>, a': seq<real>, b': seq<real>)
    requires num.Sound() && num.InUnit() && num.Decreasing()
    requires |a| == |a'| >= 1 && |b| == |b'| >= 1 && TieTerm(a + b) == TieTerm(a' + b') && !AllEqual(a + b)
    ensures PValue(num, a', b') < PValue(num, a, b) <==> Abs(Deviation(a, b)) < Abs(Deviation(a', b'))
  {
    TieTermBound(a + b);
    TieTermBound(a' + b');
    var v, z := PValueMeans(num, a, b);
    var v', z' := PValueMeans(num, a', b');
    SameVariance(|a| as real, |b| as real, TieTerm(a + b), v, v');
    ScoresOrder(z, Deviation(a, b), z', Deviation(a', b'), v);
    RatioOrder(z, z', num.sqrt(2.0));
    RatioOrder(z', z, num.sqrt(2.0));
  }

  lemma SameVariance(n1: real, n2: real, t: real, v: real, v': real)
    requires n1 >= 1.0 && n2 >= 1.0 && IsVariance(v, n1, n2, t) && IsVariance(v', n1, n2, t)
    ensures v == v'
  {
    var n := n1 + n2;
    Positive(n, n - 1.0);
    var d := 12.0 * (n * (n - 1.0));
    Cancel(d, v, v');
  }

  lemma Cancel(d: real, x: real, y: real)
    requires d > 0.0 && d * x == d * y
    ensures x == y
  {
  }

  lemma RatioOrder(x: real, y: real, s: real)
    requires x >= 0.0 && y >= 0.0 && s > 0.0
    ensures x < y <==> x / s < y / s
    ensures x / s >= 0.0 && y / s >= 0.0
  {
    assert y / s - x / s == (y - x) / s;
  }

  // ---------- the gate ----------

  datatype CanaryThresholds = CanaryThresholds(
    alpha: real,
    failCalibrationDelta: real,
    borderlineCalibrationDelta: real,
    failRiskShift: real,
    borderlineRiskShift: real,
    riskCutoff: real)

  const DEFAULT_THRESHOLDS := CanaryThresholds(0.01, 0.07, 0.04, 0.12, 0.06, 0.8)

  datatype Outcome = Fail | Borderline | Pass

  datatype CanaryResult = CanaryResult(
    outcome: Outcome,
    action: string,
    pValue: real,
    calibrationDelta: real,
    riskBandShift: real)

  function Identity(): real -> real {
    x => x
  }

  function AtLeast(cutoff: real): real -> real {
    x => if x >= cutoff then 1.0 else 0.0
  }

  function MeanOf(f: real -> real, s: seq<real>): real {
    SumOf(f, s) / (if |s| >= 1 then |s| as real else 1.0)
  }

  /** `CanaryGate.evaluate`. */
  function Evaluate(num: SpecialFunctions, t: CanaryThresholds, current: seq<real>, candidate: seq<real>): CanaryResult
    requires num.Sound()
  {
    var pValue := PValue(num, current, candidate);
    var calibrationDelta := Abs(MeanOf(Identity(), candidate) - MeanOf(Identity(), current));
    var riskShift := Abs(MeanOf(AtLeast(t.riskCutoff), candidate) - MeanOf(AtLeast(t.riskCutoff), current));
    Verdict(t, pValue, calibrationDelta, riskShift)
  }

  /** The decision, given the three measurements. */
  function Verdict(t: CanaryThresholds, pValue: real, calibrationDelta: real, riskShift: real): CanaryResult {
    var driftFail := pValue < t.alpha;
    var calFail := calibrationDelta >= t.failCalibrationDelta;
    var riskFail := riskShift >= t.failRiskShift;
    var calBorder := calibrationDelta >= t.borderlineCalibrationDelta;
    var riskBorder := riskShift >= t.borderlineRiskShift;
    if driftFail && (calFail || riskFail) then
      CanaryResult(Fail, "automatic_rollback_and_incident", pValue, calibrationDelta, riskShift)
    else if driftFail || calBorder || riskBorder then
      CanaryResult(Borderline, "extend_canary_window", pValue, calibrationDelta, riskShift)
    else
      CanaryResult(Pass, "continue_canary_ramp", pValue, calibrationDelta, riskShift)
  }

  function Gravity(o: Outcome): nat {
    match o
    case Pass => 0
    case Borderline => 1
    case Fail => 2
  }

  /**
   Worse measurements never earn a milder verdict; without significant drift there
   is no rollback at all, and a pass exactly below both borderlines; with it there is
   never a pass. Each verdict comes with its own action and the numbers it rests on.
   */
  lemma VerdictMonotone(t: CanaryThresholds, p: real, cal: real, risk: real, p': real, cal': real, risk': real)
    ensures p' <= p && cal <= cal' && risk <= risk' ==>
              Gravity(Verdict(t, p, cal, risk).outcome) <= Gravity(Verdict(t, p', cal', risk').outcome)
    ensures var r := Verdict(t, p, cal, risk);
            && r.pValue == p && r.calibrationDelta == cal && r.riskBandShift == risk
            && (p >= t.alpha ==>
                  && r.outcome != Fail
                  && (r.outcome == Pass <==> cal < t.borderlineCalibrationDelta && risk < t.borderlineRiskShift))
            && (p < t.alpha ==>
                  r.outcome != Pass && (r.outcome == Fail <==> cal >= t.failCalibrationDelta || risk >= t.failRiskShift))
            && (r.action == "automatic_rollback_and_incident" <==> r.outcome == Fail)
            && (r.action == "extend_canary_window" <==> r.outcome == Borderline)
            && (r.action == "continue_canary_ramp" <==> r.outcome == Pass)
  {
    var actions := ["automatic_rollback_and_incident", "extend_canary_window", "continue_canary_ramp"];
    assert actions[0][0] == 'a' && actions[1][0] == 'e' && actions[2][0] == 'c';
  }

  function Total(s: seq<real>): real {
    if |s| == 0 then 0.0 else Total(s[..|s| - 1]) + s[|s| - 1]
  }

  lemma {:induction false} TotalIsSum(s: seq<real>)
    ensures Total(s) == SumOf(Identity(), s)
  {
    if |s| > 0 {
      TotalIsSum(s[..|s| - 1]);
    }
  }

  /** How many scores reach the cutoff. */
  function Risky(s: seq<real>, cutoff: real): nat {
    |set k: nat | k < |s| && s[k] >= cutoff|
  }

  lemma RiskyIsSum(s: seq<real>, cutoff: real)
    ensures Risky(s, cutoff) as real == SumOf(AtLeast(cutoff), s)
  {
    SumCounts(AtLeast(cutoff), s);
    assert Ones(AtLeast(cutoff), s) == set k: nat | k < |s| && s[k] >= cutoff;
  }

  function Size(s: seq<real>): real {
    if |s| >= 1 then |s| as real else 1.0
  }

  lemma MeansApart(x: real, m: real, y: real, n: real)
    requires m > 0.0 && n > 0.0
    ensures IsGap(Abs(x / m - y / n), x, m, y, n)
  {
    var d := x / m - y / n;
    assert x / m * m == x && y / n * n == y;
    assert d * (m * n) == (x / m * m) * n - (y / n * n) * m;
    assert m * n > 0.0;
    assert Abs(d) * (m * n) == Abs(d * (m * n)) by {
      if d < 0.0 {
        assert -d * (m * n) == -(d * (m * n));
        assert -d * (m * n) > 0.0;
      } else {
        assert d * (m * n) >= 0.0;
      }
    }
  }

  /** `delta` is the distance of the means of totals `x` over `m` and `y` over `n`, cleared of the divisions. */
  predicate IsGap(delta: real, x: real, m: real, y: real, n: real) {
    delta * (m * n) == Abs(x * n - y * m)
  }

  lemma MeansGap(f: real -> real, s: seq<real>, t: seq<real>)
    ensures IsGap(Abs(MeanOf(f, s) - MeanOf(f, t)), SumOf(f, s), Size(s), SumOf(f, t), Size(t))
  {
    assert MeanOf(f, s) == SumOf(f, s) / Size(s) && MeanOf(f, t) == SumOf(f, t) / Size(t);
    MeansApart(SumOf(f, s), Size(s), SumOf(f, t), Size(t));
  }

  /** The two shifts: of the plain totals, and of the counts of risky scores. */
  lemma EvaluateMeasures(num: SpecialFunctions, t: CanaryThresholds, current: seq<real>, candidate: seq<real>)
    requires num.Sound()
    ensures var r := Evaluate(num, t, current, candidate);
            && r == Verdict(t, PValue(num, current, candidate), r.calibrationDelta, r.riskBandShift)
            && IsGap(r.calibrationDelta, Total(candidate), Size(candidate), Total(current), Size(current))
            && IsGap(r.riskBandShift, Risky(candidate, t.riskCutoff) as real, Size(candidate),
                     Risky(current, t.riskCutoff) as real, Size(current))
  {
    TotalIsSum(candidate);
    TotalIsSum(current);
    RiskyIsSum(candidate, t.riskCutoff);
    RiskyIsSum(current, t.riskCutoff);
    MeansGap(Identity(), candidate, current);
    MeansGap(AtLeast(t.riskCutoff), candidate, current);
  }

  /** The verdict and every number in it depend on the two score lists only as multisets. */
  lemma EvaluatePermutation(num: SpecialFunctions, t: CanaryThresholds,
                            current: seq<real>, current': seq<real>, candidate: seq<real>, candidate': seq<real>)
    requires num.Sound()
    requires multiset(current) == multiset(current') && multiset(candidate) == multiset(candidate')
    ensures Evaluate(num, t, current, candidate) == Evaluate(num, t, current', candidate')
  {
    PValuePermutation(num, current, current', candidate, candidate');
    MeanPermutation(Identity(), current, current');
    MeanPermutation(Identity(), candidate, candidate');
    MeanPermutation(AtLeast(t.riskCutoff), current, current');
    MeanPermutation(AtLeast(t.riskCutoff), candidate, candidate');
  }

  lemma MeanPermutation(f: real -> real, s: seq<real>, s': seq<real>)
    requires multiset(s) == multiset(s')
    ensures MeanOf(f, s) == MeanOf(f, s')
  {
    assert |s| == |multiset(s)| == |s'|;
    SumOfPermutation(f, s, s');
  }

  /** Exchanging the current and the candidate list changes nothing. */
  lemma EvaluateSwap(num: SpecialFunctions, t: CanaryThresholds, current: seq<real>, candidate: seq<real>)
    requires num.Sound()
    ensures Evaluate(num, t, current, candidate) == Evaluate(num, t, candidate, current)
  {
    PValueSwap(num, current, candidate);
  }

  /**
   A candidate that rearranges the current scores has p-value one and both
   shifts zero, so it passes exactly under thresholds that let those pass.
   */
  lemma RearrangementPasses(num: SpecialFunctions, t: CanaryThresholds, current: seq<real>, candidate: seq<real>)
    requires num.Sound() && multiset(current) == multiset(candidate)
    ensures var r := Evaluate(num, t, current, candidate);
            && r.pValue == 1.0 && r.calibrationDelta == 0.0 && r.riskBandShift == 0.0
            && (r.outcome == Pass <==> t.alpha <= 1.0 && t.borderlineCalibrationDelta > 0.0 && t.borderlineRiskShift > 0.0)
    ensures Evaluate(num, DEFAULT_THRESHOLDS, current, candidate).outcome == Pass
  {
    MeanPermutation(Identity(), current, candidate);
    MeanPermutation(AtLeast(t.riskCutoff), current, candidate);
    MeanPermutation(AtLeast(DEFAULT_THRESHOLDS.riskCutoff), current, candidate);
    RearrangementPValue(num, current, candidate);
  }

  lemma RearrangementPValue(num: SpecialFunctions, a: seq<real>, b: seq<real>)
    requires num.Sound() && multiset(a) == multiset(b)
    ensures PValue(num, a, b) == 1.0
  {
    assert |a| == |multiset(a)| == |b|;
    WinsAgree(a, b, a);
    UStatisticsAreComplementary(a, a);
    if |a| > 0 {
      var variance := VarianceU(|a|, |b|, TieTerm(a + b));
      if variance > 0.0 {
        ZeroScore(num, PairScore(a, b), |a|, variance);
      }
    }
  }

  lemma ZeroScore(num: SpecialFunctions, u: real, n: nat, variance: real)
    requires num.Sound() && variance > 0.0
    requires u + u == n as real * n as real
    ensures TwoSided(num, ZScore(num, u, n, n, variance)) == 1.0
  {
    assert u - n as real * n as real / 2.0 == 0.0;
    assert ZScore(num, u, n, n, variance) == 0.0;
    assert 0.0 / num.sqrt(2.0) == 0.0;
  }
}
