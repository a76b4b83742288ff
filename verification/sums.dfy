/** Finite sums of a real-valued function over a sequence, and the few laws the models need. */
module Sums {

  function Abs(x: real): real {
    if x < 0.0 then -x else x
  }

  function Min(x: real, y: real): real {
    if x <= y then x else y
  }

  function Max(x: real, y: real): real {
    if x >= y then x else y
  }

  /** Python's `max(lo, min(hi, value))`. */
  function Clamp(value: real, lo: real, hi: real): real {
    Max(lo, Min(hi, value))
  }

  /** Sum of `f` over `s`, last element last, so that a left-to-right loop accumulates it. */
  function SumOf<T>(f: T -> real, s: seq<T>): real {
    if |s| == 0 then 0.0 else SumOf(f, s[..|s| - 1]) + f(s[|s| - 1])
  }

  lemma SumOfSnoc<T>(f: T -> real, s: seq<T>, x: T)
    ensures SumOf(f, s + [x]) == SumOf(f, s) + f(x)
  {
    assert (s + [x])[..|s|] == s;
  }

  lemma {:induction false} SumOfConcat<T>(f: T -> real, s: seq<T>, t: seq<T>)
    ensures SumOf(f, s + t) == SumOf(f, s) + SumOf(f, t)
  {
    if |t| == 0 {
      assert s + t == s;
    } else {
      var t' := t[..|t| - 1];
      SumOfConcat(f, s, t');
      assert s + t == (s + t') + [t[|t| - 1]];
      SumOfSnoc(f, s + t', t[|t| - 1]);
    }
  }

  lemma RemoveAt<T>(t: seq<T>, i: nat)
    requires i < |t|
    ensures multiset(t[..i] + t[i + 1..]) == multiset(t) - multiset{t[i]}
  {
    assert t == t[..i] + [t[i]] + t[i + 1..];
  }

  /** Taking one term out of a sum. */
  lemma SumOfRemove<T>(f: T -> real, l: seq<T>, x: T, r: seq<T>)
    ensures SumOf(f, l + [x] + r) == SumOf(f, l + r) + f(x)
  {
    SumOfConcat(f, l + [x], r);
    SumOfSnoc(f, l, x);
    SumOfConcat(f, l, r);
  }

  /** Two arrangements of the same elements, less the last of one and its match in the other. */
  lemma PeelMatch<T>(s: seq<T>, t: seq<T>, i: nat)
    requires multiset(s) == multiset(t) && |s| > 0
    requires i < |t| && t[i] == s[|s| - 1]
    ensures multiset(s[..|s| - 1]) == multiset(t[..i] + t[i + 1..])
  {
    RemoveAt(s, |s| - 1);
    RemoveAt(t, i);
    assert s[..|s| - 1] + s[|s|..] == s[..|s| - 1];
  }

  lemma FindLast<T>(s: seq<T>, t: seq<T>) returns (i: nat)
    requires multiset(s) == multiset(t) && |s| > 0
    ensures i < |t| && t[i] == s[|s| - 1]
  {
    assert s[|s| - 1] in multiset(t);
    i :| i < |t| && t[i] == s[|s| - 1];
  }

  /** A sum does not depend on the order of its terms. */
  lemma {:induction false} SumOfPermutation<T>(f: T -> real, s: seq<T>, t: seq<T>)
    requires multiset(s) == multiset(t)
    ensures SumOf(f, s) == SumOf(f, t)
  {
    if |s| == 0 {
      assert |t| == |multiset(t)| == 0;
    } else {
      var i := FindLast(s, t);
      PeelMatch(s, t, i);
      SumOfPermutation(f, s[..|s| - 1], t[..i] + t[i + 1..]);
      SumOfRemove(f, t[..i], t[i], t[i + 1..]);
      assert t == t[..i] + [t[i]] + t[i + 1..];
    }
  }

  lemma {:induction false} SumOfConstant<T>(f: T -> real, c: real, s: seq<T>)
    requires forall x <- s :: f(x) == c
    ensures SumOf(f, s) == c * |s| as real
  {
    if |s| > 0 {
      SumOfConstant(f, c, s[..|s| - 1]);
      assert s[|s| - 1] in s;
    }
  }

  /** The positions at which `f` is one. */
  function Ones<T>(f: T -> real, s: seq<T>): set<nat> {
    set k: nat | k < |s| && f(s[k]) == 1.0
  }

  /** Summing noughts and ones counts the ones. */
  lemma {:induction false} SumCounts<T>(f: T -> real, s: seq<T>)
    requires forall x <- s :: f(x) == 0.0 || f(x) == 1.0
    ensures SumOf(f, s) == |Ones(f, s)| as real
  {
    if |s| > 0 {
      var n := |s| - 1;
      var p := s[..n];
      SumCounts(f, p);
      assert s[n] in s;
      OnesSnoc(f, s);
    }
  }

  lemma OnesSnoc<T>(f: T -> real, s: seq<T>)
    requires |s| > 0
    ensures var n := |s| - 1; |Ones(f, s)| == |Ones(f, s[..n])| + if f(s[n]) == 1.0 then 1 else 0
  {
    var n := |s| - 1;
    assert Ones(f, s) == if f(s[n]) == 1.0 then Ones(f, s[..n]) + {n} else Ones(f, s[..n]);
  }

  /** Terms compared one by one. */
  lemma {:induction false} SumOfMonotone<T>(f: T -> real, g: T -> real, s: seq<T>)
    requires forall x <- s :: f(x) <= g(x)
    ensures SumOf(f, s) <= SumOf(g, s)
  {
    if |s| > 0 {
      SumOfMonotone(f, g, s[..|s| - 1]);
      assert s[|s| - 1] in s;
    }
  }

  lemma SumOfCongruent<T>(f: T -> real, g: T -> real, s: seq<T>)
    requires forall x <- s :: f(x) == g(x)
    ensures SumOf(f, s) == SumOf(g, s)
  {
    SumOfMonotone(f, g, s);
    SumOfMonotone(g, f, s);
  }

  lemma {:induction false} SumOfAdd<T>(f: T -> real, g: T -> real, h: T -> real, s: seq<T>)
    requires forall x <- s :: h(x) == f(x) + g(x)
    ensures SumOf(h, s) == SumOf(f, s) + SumOf(g, s)
  {
    if |s| > 0 {
      SumOfAdd(f, g, h, s[..|s| - 1]);
      assert s[|s| - 1] in s;
    }
  }

  lemma {:induction false} SumOfScaled<T>(f: T -> real, g: T -> real, c: real, s: seq<T>)
    requires forall x <- s :: g(x) == c * f(x)
    ensures SumOf(g, s) == c * SumOf(f, s)
  {
    if |s| > 0 {
      SumOfScaled(f, g, c, s[..|s| - 1]);
      assert s[|s| - 1] in s;
    }
  }

  /** Adding `d` to the single term at `x` adds `d` to the sum. */
  lemma {:induction false} SumOfBump<T>(f: T -> real, g: T -> real, s: seq<T>, x: T, d: real)
    requires forall i, j :: 0 <= i < j < |s| ==> s[i] != s[j]
    requires forall y <- s :: g(y) == if y == x then f(y) + d else f(y)
    ensures SumOf(g, s) == SumOf(f, s) + if x in s then d else 0.0
  {
    if |s| > 0 {
      SumOfBump(f, g, s[..|s| - 1], x, d);
      assert s == s[..|s| - 1] + [s[|s| - 1]];
      assert s[|s| - 1] in s;
    }
  }

  /** Triangle inequality. */
  lemma {:induction false} SumOfTriangle<T>(f: T -> real, g: T -> real, s: seq<T>)
    requires forall x <- s :: g(x) == Abs(f(x))
    ensures Abs(SumOf(f, s)) <= SumOf(g, s)
  {
    if |s| > 0 {
      SumOfTriangle(f, g, s[..|s| - 1]);
      assert s[|s| - 1] in s;
    }
  }

  /** The square of a total of `n` terms, against the total `q` of their squares. */
  predicate SquareWithin(a: real, n: real, q: real) {
    a * a <= n * q
  }

  /** Cauchy-Schwarz against the constant one: the square of a sum is at most the count times the sum of squares. */
  lemma {:induction false} SumOfSquares<T>(f: T -> real, g: T -> real, s: seq<T>)
    requires forall x <- s :: g(x) == f(x) * f(x)
    ensures SquareWithin(SumOf(f, s), |s| as real, SumOf(g, s))
  {
    if |s| > 0 {
      var s' := s[..|s| - 1];
      SumOfSquares(f, g, s');
      assert s[|s| - 1] in s;
      SquareStep(SumOf(f, s'), SumOf(g, s'), f(s[|s| - 1]), |s'| as real);
    }
  }

  lemma CancelPositive(n: real, m: real)
    requires n > 0.0
    ensures n * m >= 0.0 ==> m >= 0.0
  {
    if m < 0.0 {
      assert n * -m > 0.0;
      assert n * -m == -(n * m);
    }
  }

  lemma SquareStep(a: real, q: real, y: real, n: real)
    requires n >= 0.0 && SquareWithin(a, n, q) && (n == 0.0 ==> a == 0.0 && q == 0.0)
    ensures SquareWithin(a + y, n + 1.0, q + y * y)
  {
    if n > 0.0 {
      LargerSquare(a, q, y, n);
    }
  }

  lemma LargerSquare(a: real, q: real, y: real, n: real)
    requires n > 0.0 && a * a <= n * q
    ensures (a + y) * (a + y) <= (n + 1.0) * (q + y * y)
  {
    // n * (q + n*y^2 - 2*a*y) >= (a - n*y)^2 >= 0
    var d := a - n * y;
    assert d * d == a * a - 2.0 * (n * (a * y)) + n * (n * (y * y));
    var m := q + n * (y * y) - 2.0 * (a * y);
    assert n * m == n * q + n * (n * (y * y)) - 2.0 * (n * (a * y));
    assert n * m >= d * d >= 0.0;
    CancelPositive(n, m);
    assert (a + y) * (a + y) == a * a + 2.0 * (a * y) + y * y;
    assert (n + 1.0) * (q + y * y) == n * q + q + n * (y * y) + y * y;
  }
}
