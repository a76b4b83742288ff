/**
 The statistics behind the drift gate (src/quant_platform/canary.py): mid-ranks,
 the U statistic as a count over all pairs, and the tie-corrected variance.
 */
module MannWhitney {
  import opened Common
  import opened Sums

  // ---------- pairwise comparison, the definition of U ----------

  /** What one pair contributes to U: a win counts one, a tie one half. */
  function Beats(x: real, y: real): real {
    if x > y then 1.0 else if x == y then 0.5 else 0.0
  }

  function BeatsFn(x: real): real -> real {
    y => Beats(x, y)
  }

  function WinsFn(b: seq<real>): real -> real {
    x => SumOf(BeatsFn(x), b)
  }

  /** U by definition: the number of pairs with a > b plus half the number of ties. */
  function PairScore(a: seq<real>, b: seq<real>): real {
    SumOf(WinsFn(b), a)
  }

  lemma {:induction false} WinsOfSnoc(a: seq<real>, b: seq<real>, y: real)
    ensures PairScore(a, b + [y]) == PairScore(a, b) + |a| as real - PairScore([y], a)
  {
    if |a| > 0 {
      var a', x := a[..|a| - 1], a[|a| - 1];
      WinsOfSnoc(a', b, y);
      SumOfSnoc(BeatsFn(x), b, y);
      assert a == a' + [x];
      SumOfSnoc(BeatsFn(y), a', x);
      assert Beats(x, y) == 1.0 - Beats(y, x);
      OneWinner(y, a');
      OneWinner(y, a);
    } else {
      OneWinner(y, a);
    }
  }

  lemma OneWinner(y: real, a: seq<real>)
    ensures PairScore([y], a) == SumOf(BeatsFn(y), a)
  {
    assert [y][..0] == [];
    assert SumOf(WinsFn(a), []) == 0.0;
  }

  /** U1 + U2 = n1 * n2. */
  lemma {:induction false} UStatisticsAreComplementary(a: seq<real>, b: seq<real>)
    ensures PairScore(a, b) + PairScore(b, a) == |a| as real * |b| as real
  {
    if |b| == 0 {
      SumOfConstant(WinsFn(b), 0.0, a);
    } else {
      var b', y := b[..|b| - 1], b[|b| - 1];
      assert b == b' + [y];
      UStatisticsAreComplementary(a, b');
      WinsOfSnoc(a, b', y);
      SumOfSnoc(WinsFn(a), b', y);
      OneWinner(y, a);
      assert |b| as real == |b'| as real + 1.0;
      assert |a| as real * |b| as real == |a| as real * |b'| as real + |a| as real;
    }
  }

  lemma {:induction false} WinsAgree(a: seq<real>, b: seq<real>, b': seq<real>)
    requires multiset(b) == multiset(b')
    ensures PairScore(a, b) == PairScore(a, b')
  {
    if |a| > 0 {
      WinsAgree(a[..|a| - 1], b, b');
      SumOfPermutation(BeatsFn(a[|a| - 1]), b, b');
    }
  }

  /** U depends on the samples only as multisets. */
  lemma PairScorePermutation(a: seq<real>, a': seq<real>, b: seq<real>, b': seq<real>)
    requires multiset(a) == multiset(a') && multiset(b) == multiset(b')
    ensures PairScore(a, b) == PairScore(a', b')
  {
    WinsAgree(a, b, b');
    SumOfPermutation(WinsFn(b'), a, a');
  }

  // ---------- mid-ranks ----------

  /** An element of the pooled sample: its value and the sample it came from (0 or 1). */
  datatype Entry = Entry(value: real, group: int)

  function Values(p: seq<Entry>): (vs: seq<real>)
    ensures |vs| == |p|
    ensures forall k :: 0 <= k < |p| ==> vs[k] == p[k].value
  {
    seq(|p|, k requires 0 <= k < |p| => p[k].value)
  }

  function Tag(s: seq<real>, group: int): (p: seq<Entry>)
    ensures |p| == |s|
    ensures forall k :: 0 <= k < |s| ==> p[k] == Entry(s[k], group)
  {
    seq(|s|, k requires 0 <= k < |s| => Entry(s[k], group))
  }

  ghost predicate SortedByValue(p: seq<Entry>) {
    forall i, j :: 0 <= i < j < |p| ==> p[i].value <= p[j].value
  }

  function Below(vs: seq<real>, v: real): nat {
    if |vs| == 0 then 0 else Below(vs[..|vs| - 1], v) + if vs[|vs| - 1] < v then 1 else 0
  }

  function Equal(vs: seq<real>, v: real): nat {
    multiset(vs)[v]
  }

  /** The mid-rank of `v` among `vs`: those strictly below, and the middle of its tie group. */
  function MidRank(vs: seq<real>, v: real): real {
    Below(vs, v) as real + (Equal(vs, v) as real + 1.0) / 2.0
  }

  /** A mid-rank is one half more than the wins of `v` over the whole pool, so it is additive over the pool. */
  lemma {:induction false} MidRankIsWins(vs: seq<real>, v: real)
    ensures MidRank(vs, v) == SumOf(BeatsFn(v), vs) + 0.5
  {
    if |vs| > 0 {
      var w := vs[|vs| - 1];
      MidRankIsWins(vs[..|vs| - 1], v);
      assert vs == vs[..|vs| - 1] + [w];
    }
  }

  lemma {:induction false} BelowConcat(s: seq<real>, t: seq<real>, v: real)
    ensures Below(s + t, v) == Below(s, v) + Below(t, v)
  {
    if |t| == 0 {
      assert s + t == s;
    } else {
      assert (s + t)[..|s + t| - 1] == s + t[..|t| - 1];
      BelowConcat(s, t[..|t| - 1], v);
    }
  }

  lemma {:induction false} BelowAll(s: seq<real>, v: real)
    requires forall k :: 0 <= k < |s| ==> s[k] < v
    ensures Below(s, v) == |s|
  {
    if |s| > 0 {
      BelowAll(s[..|s| - 1], v);
    }
  }

  lemma {:induction false} BelowNone(s: seq<real>, v: real)
    requires forall k :: 0 <= k < |s| ==> s[k] >= v
    ensures Below(s, v) == 0
  {
    if |s| > 0 {
      BelowNone(s[..|s| - 1], v);
    }
  }

  lemma {:induction false} EqualAll(s: seq<real>, v: real)
    ensures (forall k :: 0 <= k < |s| ==> s[k] == v) ==> Equal(s, v) == |s|
  {
    if |s| > 0 {
      EqualAll(s[..|s| - 1], v);
      assert s == s[..|s| - 1] + [s[|s| - 1]];
    }
  }

  /** On sorted input the run i..j of `v` carries the average of its positions as rank. */
  lemma RunRank(p: seq<Entry>, i: nat, j: nat)
    requires SortedByValue(p) && i <= j < |p|
    requires forall k :: i <= k <= j ==> p[k].value == p[i].value
    requires i > 0 ==> p[i - 1].value != p[i].value
    requires j + 1 < |p| ==> p[j + 1].value != p[i].value
    ensures MidRank(Values(p), p[i].value) == (i + j + 2) as real / 2.0
  {
    RunCounts(Values(p), i, j);
    assert (j - i + 1) as real == j as real - i as real + 1.0;
    assert (i + j + 2) as real == i as real + j as real + 2.0;
  }

  lemma RunCounts(vs: seq<real>, i: nat, j: nat)
    requires forall a, b :: 0 <= a < b < |vs| ==> vs[a] <= vs[b]
    requires i <= j < |vs|
    requires forall k :: i <= k <= j ==> vs[k] == vs[i]
    requires i > 0 ==> vs[i - 1] != vs[i]
    requires j + 1 < |vs| ==> vs[j + 1] != vs[i]
    ensures Below(vs, vs[i]) == i && Equal(vs, vs[i]) == j - i + 1
  {
    forall k | 0 <= k < i ensures vs[k] < vs[i] {
      assert vs[i - 1] <= vs[i];
      assert k == i - 1 || vs[k] <= vs[i - 1];
    }
    forall k | j < k < |vs| ensures vs[k] > vs[i] {
      assert vs[i] <= vs[j + 1];
      assert k == j + 1 || vs[j + 1] <= vs[k];
    }
    SplitCounts(vs, i, j, vs[i]);
  }

  lemma SplitCounts(vs: seq<real>, i: nat, j: nat, v: real)
    requires i <= j < |vs|
    requires forall k :: 0 <= k < i ==> vs[k] < v
    requires forall k :: i <= k <= j ==> vs[k] == v
    requires forall k :: j < k < |vs| ==> vs[k] > v
    ensures Below(vs, v) == i && Equal(vs, v) == j - i + 1
  {
    var l, m, r := vs[..i], vs[i..j + 1], vs[j + 1..];
    ThreeParts(l, m, r, v);
    assert vs == l + m + r;
  }

  lemma ThreeParts(l: seq<real>, m: seq<real>, r: seq<real>, v: real)
    requires forall k :: 0 <= k < |l| ==> l[k] < v
    requires forall k :: 0 <= k < |m| ==> m[k] == v
    requires forall k :: 0 <= k < |r| ==> r[k] > v
    ensures Below(l + m + r, v) == |l| && Equal(l + m + r, v) == |m|
  {
    BelowConcat(l + m, r, v);
    BelowConcat(l, m, v);
    BelowAll(l, v);
    BelowNone(m, v);
    BelowNone(r, v);
    EqualAll(m, v);
    assert v !in l && v !in r;
    assert multiset(l + m + r)[v] == multiset(l)[v] + multiset(m)[v] + multiset(r)[v];
  }

  /** `_rank`: a nested index walk over the runs of equal neighbours. */
  method Rank(values: seq<Entry>) returns (ranks: seq<real>)
    ensures |ranks| == |values|
    ensures SortedByValue(values) ==>
              forall k :: 0 <= k < |values| ==> ranks[k] == MidRank(Values(values), values[k].value)
  {
    var buffer := new real[|values|](_ => 0.0);
    var i := 0;
    while i < |values|
      invariant 0 <= i <= |values|
      invariant 0 < i < |values| ==> values[i - 1].value != values[i].value
      invariant SortedByValue(values) ==>
                  forall k :: 0 <= k < i ==> buffer[k] == MidRank(Values(values), values[k].value)
    {
      var j := i;
      while j + 1 < |values| && values[j + 1].value == values[i].value
        invariant i <= j < |values|
        invariant forall k :: i <= k <= j ==> values[k].value == values[i].value
      {
        j := j + 1;
      }
      var avgRank := (i + j + 2) as real / 2.0;
      if SortedByValue(values) {
        RunRank(values, i, j);
      }
      ghost var ranked := buffer[..i];
      for k := i to j + 1
        invariant buffer[..i] == ranked
        invariant forall m :: i <= m < k ==> buffer[m] == avgRank
      {
        buffer[k] := avgRank;
      }
      assert forall k :: 0 <= k < i ==> buffer[k] == ranked[k];
      i := j + 1;
    }
    ranks := buffer[..];
  }

  // ---------- the rank sum is U in fast form ----------

  lemma ValuesConcat(p: seq<Entry>, q: seq<Entry>)
    ensures Values(p + q) == Values(p) + Values(q)
  {
  }

  lemma {:induction false} ValuesPermutation(p: seq<Entry>, q: seq<Entry>)
    requires multiset(p) == multiset(q)
    ensures multiset(Values(p)) == multiset(Values(q))
  {
    if |p| == 0 {
      assert |q| == |multiset(q)| == 0;
    } else {
      var p', x := p[..|p| - 1], p[|p| - 1];
      assert p == p' + [x];
      assert x in multiset(q);
      var i :| 0 <= i < |q| && q[i] == x;
      var l, r := q[..i], q[i + 1..];
      assert q == l + [x] + r;
      RemoveAt(q, i);
      ValuesPermutation(p', l + r);
      MoveToEnd(l, x, r);
      MoveToEnd(p', x, []);
      assert p' + [x] + [] == p && p' + [] == p';
    }
  }

  lemma MoveToEnd(l: seq<Entry>, e: Entry, r: seq<Entry>)
    ensures multiset(Values(l + [e] + r)) == multiset(Values(l + r)) + multiset{e.value}
  {
    ValuesConcat(l + [e], r);
    ValuesConcat(l, [e]);
    ValuesConcat(l, r);
    assert Values([e]) == [e.value];
  }

  /** The rank an entry adds to the rank sum of sample `group`. */
  function RankFn(vs: seq<real>, group: int): Entry -> real {
    (e: Entry) => if e.group == group then MidRank(vs, e.value) else 0.0
  }

  function RankSum(p: seq<Entry>, group: int): real {
    SumOf(RankFn(Values(p), group), p)
  }

  lemma {:induction false} TaggedRankSum(vs: seq<real>, s: seq<real>, group: int, a: seq<real>, b: seq<real>)
    requires multiset(vs) == multiset(a + b)
    ensures SumOf(RankFn(vs, group), Tag(s, group)) == PairScore(s, a) + PairScore(s, b) + |s| as real / 2.0
  {
    if |s| > 0 {
      var s', v := s[..|s| - 1], s[|s| - 1];
      TaggedRankSum(vs, s', group, a, b);
      assert Tag(s, group)[..|s| - 1] == Tag(s', group);
      MidRankIsWins(vs, v);
      SumOfPermutation(BeatsFn(v), vs, a + b);
      SumOfConcat(BeatsFn(v), a, b);
      assert |s| as real == |s'| as real + 1.0;
    }
  }

  /** For any arrangement of the pooled sample, the rank sum of A less n1(n1+1)/2 is the pairwise count U. */
  lemma RankSumGivesU(a: seq<real>, b: seq<real>, p: seq<Entry>)
    requires multiset(p) == multiset(Tag(a, 0) + Tag(b, 1))
    ensures RankSum(p, 0) - |a| as real * (|a| as real + 1.0) / 2.0 == PairScore(a, b)
    ensures multiset(Values(p)) == multiset(a + b)
  {
    PooledValues(a, b, p);
    PooledRankSum(Values(p), a, b, p);
    TaggedRankSum(Values(p), a, 0, a, b);
    UStatisticsAreComplementary(a, a);
  }

  lemma PooledValues(a: seq<real>, b: seq<real>, p: seq<Entry>)
    requires multiset(p) == multiset(Tag(a, 0) + Tag(b, 1))
    ensures multiset(Values(p)) == multiset(a + b)
  {
    ValuesPermutation(p, Tag(a, 0) + Tag(b, 1));
    assert Values(Tag(a, 0) + Tag(b, 1)) == a + b;
  }

  lemma PooledRankSum(vs: seq<real>, a: seq<real>, b: seq<real>, p: seq<Entry>)
    requires multiset(p) == multiset(Tag(a, 0) + Tag(b, 1))
    ensures SumOf(RankFn(vs, 0), p) == SumOf(RankFn(vs, 0), Tag(a, 0))
  {
    var f := RankFn(vs, 0);
    SumOfPermutation(f, p, Tag(a, 0) + Tag(b, 1));
    SumOfConcat(f, Tag(a, 0), Tag(b, 1));
    OtherGroupSum(vs, Tag(b, 1));
  }

  lemma OtherGroupSum(vs: seq<real>, s: seq<Entry>)
    requires forall e <- s :: e.group != 0
    ensures SumOf(RankFn(vs, 0), s) == 0.0
  {
    SumOfConstant(RankFn(vs, 0), 0.0, s);
  }

  /** The mid-ranks of n values sum to n(n+1)/2, whatever the ties. */
  lemma RanksTotal(vs: seq<real>)
    ensures SumOf(RankFn(vs, 0), Tag(vs, 0)) == |vs| as real * (|vs| as real + 1.0) / 2.0
  {
    assert vs + [] == vs;
    TaggedRankSum(vs, vs, 0, vs, []);
    SumOfConstant(WinsFn([]), 0.0, vs);
    UStatisticsAreComplementary(vs, vs);
  }

  // ---------- the tie correction ----------

  /** Each member of a tie group of t carries t^2 - 1, so a whole group carries t^3 - t. */
  function TieFn(pool: multiset<real>): real -> real {
    v => pool[v] as real * pool[v] as real - 1.0
  }

  function TieTerm(vs: seq<real>): real {
    SumOf(TieFn(multiset(vs)), vs)
  }

  function GroupFn(vs: seq<real>): real -> real {
    v => Cube(Equal(vs, v) as real) - Equal(vs, v) as real
  }

  function Cube(x: real): real {
    x * x * x
  }

  function WeightFn(vs: seq<real>, g: real -> real): real -> real {
    v => Equal(vs, v) as real * g(v)
  }

  lemma WeightSnoc(vs: seq<real>, x: real, g: real -> real, y: real)
    ensures WeightFn(vs + [x], g)(y) == if y == x then WeightFn(vs, g)(y) + g(x) else WeightFn(vs, g)(y)
  {
    assert Equal(vs + [x], y) == Equal(vs, y) + if y == x then 1 else 0;
    Distribute(Equal(vs, y) as real, g(y));
  }

  lemma Distribute(c: real, w: real)
    ensures (c + 1.0) * w == c * w + w
  {
  }

  /** Summing over elements or over their distinct values with multiplicity is the same. */
  lemma {:induction false} Regroup(vs: seq<real>, g: real -> real, keys: seq<real>)
    requires Distinct(keys)
    requires forall v <- vs :: v in keys
    ensures SumOf(WeightFn(vs, g), keys) == SumOf(g, vs)
  {
    if |vs| == 0 {
      SumOfConstant(WeightFn(vs, g), 0.0, keys);
    } else {
      var vs', x := vs[..|vs| - 1], vs[|vs| - 1];
      assert vs == vs' + [x];
      Regroup(vs', g, keys);
      forall y <- keys ensures WeightFn(vs, g)(y) == if y == x then WeightFn(vs', g)(y) + g(x) else WeightFn(vs', g)(y) {
        WeightSnoc(vs', x, g, y);
      }
      SumOfBump(WeightFn(vs', g), WeightFn(vs, g), keys, x, g(x));
    }
  }

  lemma GroupIsWeighted(vs: seq<real>, v: real)
    ensures GroupFn(vs)(v) == WeightFn(vs, TieFn(multiset(vs)))(v)
  {
    CubeLessSelf(Equal(vs, v) as real);
  }

  /** The tie term does not depend on how the distinct values are listed. */
  lemma TieTermByGroups(vs: seq<real>, keys: seq<real>)
    requires Distinct(keys)
    requires forall v <- vs :: v in keys
    ensures SumOf(GroupFn(vs), keys) == TieTerm(vs)
  {
    var f, g := WeightFn(vs, TieFn(multiset(vs))), GroupFn(vs);
    Regroup(vs, TieFn(multiset(vs)), keys);
    forall v <- keys ensures g(v) == f(v) {
      GroupIsWeighted(vs, v);
    }
    SumOfCongruent(g, f, keys);
  }

  lemma TieTermPermutation(vs: seq<real>, ws: seq<real>)
    requires multiset(vs) == multiset(ws)
    ensures TieTerm(vs) == TieTerm(ws)
  {
    SumOfPermutation(TieFn(multiset(vs)), vs, ws);
  }

  ghost predicate AllEqual(vs: seq<real>) {
    forall i, j :: 0 <= i < j < |vs| ==> vs[i] == vs[j]
  }

  lemma {:induction false} EqualAtMost(vs: seq<real>, v: real)
    ensures Equal(vs, v) <= |vs|
    ensures Equal(vs, v) == |vs| ==> forall k :: 0 <= k < |vs| ==> vs[k] == v
  {
    if |vs| > 0 {
      EqualAtMost(vs[..|vs| - 1], v);
      assert vs == vs[..|vs| - 1] + [vs[|vs| - 1]];
    }
  }

  lemma CubeLessSelf(c: real)
    ensures c * (c * c - 1.0) == Cube(c) - c
  {
  }

  lemma SquareBound(c: real, n: real)
    requires 0.0 <= c <= n
    ensures c * c <= n * n
  {
    assert c * c <= c * n <= n * n;
  }

  /** With every tie group at most m large, the tie term is at most n(m^2 - 1). */
  lemma TieTermAtMost(vs: seq<real>, m: real)
    requires forall v <- vs :: Equal(vs, v) as real <= m
    ensures TieTerm(vs) <= (m * m - 1.0) * |vs| as real
  {
    var bound := m * m - 1.0;
    forall v <- vs ensures TieFn(multiset(vs))(v) <= Constant(bound)(v) {
      TieFnAtMost(vs, v, m);
    }
    SumOfMonotone(TieFn(multiset(vs)), Constant(bound), vs);
    SumOfConstant(Constant(bound), bound, vs);
  }

  function Constant(c: real): real -> real {
    v => c
  }

  lemma TieFnAtMost(vs: seq<real>, v: real, m: real)
    requires Equal(vs, v) as real <= m
    ensures TieFn(multiset(vs))(v) <= m * m - 1.0
  {
    SquareBound(Equal(vs, v) as real, m);
  }

  lemma ShorterGroups(n: real)
    requires n >= 2.0
    ensures ((n - 1.0) * (n - 1.0) - 1.0) * n < Cube(n) - n
  {
    var k := 2.0 * n - 1.0;
    assert (n - 1.0) * (n - 1.0) - 1.0 == (n * n - 1.0) - k;
    assert ((n * n - 1.0) - k) * n == (n * n - 1.0) * n - k * n;
    assert k * n > 0.0;
    CubeLessSelf(n);
  }

  lemma OneTieGroup(vs: seq<real>)
    requires AllEqual(vs)
    ensures TieTerm(vs) == Cube(|vs| as real) - |vs| as real
  {
    var n := |vs| as real;
    var term := n * n - 1.0;
    forall v <- vs ensures TieFn(multiset(vs))(v) == term {
      EqualAll(vs, v);
      assert multiset(vs)[v] as real == n;
    }
    SumOfConstant(TieFn(multiset(vs)), term, vs);
    CubeLessSelf(n);
  }

  /** The tie term is at most n^3 - n, and reaches it only when the whole pool is one tie group. */
  lemma TieTermBound(vs: seq<real>)
    requires |vs| >= 2
    ensures TieTerm(vs) <= Cube(|vs| as real) - |vs| as real
    ensures TieTerm(vs) == Cube(|vs| as real) - |vs| as real <==> AllEqual(vs)
  {
    if AllEqual(vs) {
      OneTieGroup(vs);
    } else {
      SeveralTieGroups(vs);
    }
  }

  lemma SeveralTieGroups(vs: seq<real>)
    requires |vs| >= 2 && !AllEqual(vs)
    ensures TieTerm(vs) < Cube(|vs| as real) - |vs| as real
  {
    var n := |vs| as real;
    forall v <- vs ensures Equal(vs, v) as real <= n - 1.0 {
      EqualAtMost(vs, v);
      assert Equal(vs, v) <= |vs| - 1;
    }
    TieTermAtMost(vs, n - 1.0);
    ShorterGroups(n);
  }

  function VarianceU(n1: nat, n2: nat, tieTerm: real): real
    requires n1 >= 1 && n2 >= 1
  {
    var n := (n1 + n2) as real;
    n1 as real * n2 as real / 12.0 * ((n + 1.0) - tieTerm / (n * (n - 1.0)))
  }

  /** The variance is never negative, and is zero exactly on a pool of one repeated value. */
  lemma VarianceSign(a: seq<real>, b: seq<real>)
    requires |a| >= 1 && |b| >= 1
    ensures VarianceU(|a|, |b|, TieTerm(a + b)) >= 0.0
    ensures VarianceU(|a|, |b|, TieTerm(a + b)) == 0.0 <==> AllEqual(a + b)
  {
    TieTermBound(a + b);
    VarianceSignOf(|a|, |b|, TieTerm(a + b));
  }

  lemma VarianceSignOf(n1: nat, n2: nat, t: real)
    requires n1 >= 1 && n2 >= 1
    ensures var n := (n1 + n2) as real;
            && (VarianceU(n1, n2, t) >= 0.0 <==> t <= Cube(n) - n)
            && (VarianceU(n1, n2, t) == 0.0 <==> t == Cube(n) - n)
  {
    var n := (n1 + n2) as real;
    var w := (n + 1.0) - t / (n * (n - 1.0));
    CorrectionSign(n, t, w);
    var k := n1 as real * n2 as real / 12.0;
    assert n1 as real * n2 as real > 0.0;
    SignOfFactor(k, w);
  }

  /** The variance without its divisions. */
  lemma VarianceEquation(n1: nat, n2: nat, t: real)
    requires n1 >= 1 && n2 >= 1
    ensures var n := (n1 + n2) as real;
            12.0 * (n * (n - 1.0)) * VarianceU(n1, n2, t) == (n1 as real * n2 as real) * ((n + 1.0) * (n * (n - 1.0)) - t)
  {
    var n := (n1 + n2) as real;
    var d, k := n * (n - 1.0), n1 as real * n2 as real;
    assert d > 0.0;
    ClearDivisions(k, n + 1.0, t, d);
  }

  lemma ClearDivisions(k: real, m: real, t: real, d: real)
    requires d > 0.0
    ensures 12.0 * d * (k / 12.0 * (m - t / d)) == k * (m * d - t)
  {
    DivideBack(t, d);
    var w := m - t / d;
    assert d * w == d * m - d * (t / d);
    assert 12.0 * d * (k / 12.0 * w) == k * (d * w);
  }

  lemma CorrectionSign(n: real, t: real, w: real)
    requires n >= 2.0 && w == (n + 1.0) - t / (n * (n - 1.0))
    ensures w >= 0.0 <==> t <= Cube(n) - n
    ensures w == 0.0 <==> t == Cube(n) - n
  {
    var d := n * (n - 1.0);
    assert d > 0.0;
    FactorCube(n);
    DivideBack(t, d);
    var q := t / d;
    assert d * ((n + 1.0) - q) == d * (n + 1.0) - d * q;
    SignOfFactor(d, w);
  }

  lemma FactorCube(n: real)
    ensures (n * (n - 1.0)) * (n + 1.0) == Cube(n) - n
  {
    assert n * (n - 1.0) == n * n - n;
    assert (n * n - n) * (n + 1.0) == (n * n) * (n + 1.0) - n * (n + 1.0);
  }

  lemma DivideBack(t: real, d: real)
    requires d != 0.0
    ensures d * (t / d) == t
  {
  }

  lemma SignOfFactor(d: real, w: real)
    requires d > 0.0
    ensures d * w >= 0.0 <==> w >= 0.0
    ensures d * w == 0.0 <==> w == 0.0
  {
    if w > 0.0 {
      assert d * w > 0.0;
    } else if w < 0.0 {
      assert d * -w > 0.0;
      assert d * -w == -(d * w);
    }
  }
}
