/** Per-cluster counts, sums and maxima over an assignment of examples to clusters. */
module Tallies {
  import opened Points

  /** How many of the first n examples are assigned to cluster k. */
  function CountOf(owner: seq<int>, k: int, n: nat): (c: nat)
    requires n <= |owner|
    ensures c <= n
  {
    if n == 0 then 0 else CountOf(owner, k, n - 1) + (if owner[n - 1] == k then 1 else 0)
  }

  /** The sum of the values of those examples. */
  function SumOf(owner: seq<int>, vs: seq<real>, k: int, n: nat): real
    requires n <= |owner| && n <= |vs|
  {
    if n == 0 then 0.0 else SumOf(owner, vs, k, n - 1) + (if owner[n - 1] == k then vs[n - 1] else 0.0)
  }

  /** Their largest value, or 0 when none is positive. */
  function MaxOf(owner: seq<int>, vs: seq<real>, k: int, n: nat): (m: real)
    requires n <= |owner| && n <= |vs|
    ensures m >= 0.0
    ensures forall i :: 0 <= i < n && owner[i] == k ==> vs[i] <= m
    ensures m == 0.0 || exists i :: 0 <= i < n && owner[i] == k && vs[i] == m
  {
    if n == 0 then 0.0
    else
      var m := MaxOf(owner, vs, k, n - 1);
      if owner[n - 1] == k && vs[n - 1] > m then vs[n - 1] else m
  }

  /** The sum of a sequence. */
  ghost function Total(vs: seq<real>): real {
    if |vs| == 0 then 0.0 else Total(vs[..|vs| - 1]) + vs[|vs| - 1]
  }

  lemma TotalUpTo(vs: seq<real>, n: nat)
    requires 0 < n <= |vs|
    ensures Total(vs[..n]) == Total(vs[..n - 1]) + vs[n - 1]
  {
    assert vs[..n][..n - 1] == vs[..n - 1];
  }

  lemma TotalWhole(vs: seq<real>)
    ensures Total(vs[..|vs|]) == Total(vs)
  {
    assert vs[..|vs|] == vs;
  }

  /** A count is the size of a set. */
  lemma {:induction false} CountIsSize(owner: seq<int>, k: int, n: nat)
    requires n <= |owner|
    ensures CountOf(owner, k, n) == |set i | 0 <= i < n && owner[i] == k|
  {
    if n > 0 {
      CountIsSize(owner, k, n - 1);
      var now, before := set i | 0 <= i < n && owner[i] == k, set i | 0 <= i < n - 1 && owner[i] == k;
      assert now == if owner[n - 1] == k then before + {n - 1} else before;
    }
  }

  /** A cluster's sum is the sum of a sequence that is zero elsewhere. */
  lemma {:induction false} SumIsTotal(owner: seq<int>, vs: seq<real>, k: int, n: nat, ws: seq<real>)
    requires n <= |owner| && n <= |vs| && n <= |ws|
    requires forall i :: 0 <= i < n ==> ws[i] == if owner[i] == k then vs[i] else 0.0
    ensures SumOf(owner, vs, k, n) == Total(ws[..n])
  {
    if n > 0 {
      SumIsTotal(owner, vs, k, n - 1, ws);
      TotalUpTo(ws, n);
    }
  }

  /** The sum over clusters 0..m of weight times count. */
  function Weighted(w: seq<nat>, owner: seq<int>, m: nat, n: nat): nat
    requires m <= |w| && n <= |owner|
  {
    if m == 0 then 0 else Weighted(w, owner, m - 1, n) + w[m - 1] * CountOf(owner, m - 1, n)
  }

  /** The sum over examples 0..n of their cluster's weight. */
  function WeightOfExamples(w: seq<nat>, owner: seq<int>, n: nat): nat
    requires n <= |owner| && forall i :: 0 <= i < n ==> 0 <= owner[i] < |w|
  {
    if n == 0 then 0 else WeightOfExamples(w, owner, n - 1) + w[owner[n - 1]]
  }

  lemma {:induction false} WeightedGrows(w: seq<nat>, owner: seq<int>, m: nat, n: nat)
    requires m <= |w| && n < |owner| && owner[n] >= 0
    ensures Weighted(w, owner, m, n + 1)
         == Weighted(w, owner, m, n) + (if owner[n] < m then w[owner[n]] else 0)
  {
    if m > 0 {
      WeightedGrows(w, owner, m - 1, n);
      var c := CountOf(owner, m - 1, n);
      if owner[n] == m - 1 {
        assert w[m - 1] * (c + 1) == w[m - 1] * c + w[m - 1];
      }
    }
  }

  lemma {:induction false} WeightedEmpty(w: seq<nat>, owner: seq<int>, m: nat)
    requires m <= |w|
    ensures Weighted(w, owner, m, 0) == 0
  {
    if m > 0 {
      WeightedEmpty(w, owner, m - 1);
    }
  }

  /** Counting by cluster and counting by example agree. */
  lemma {:induction false} DoubleCount(w: seq<nat>, owner: seq<int>, n: nat)
    requires n <= |owner| && forall i :: 0 <= i < n ==> 0 <= owner[i] < |w|
    ensures Weighted(w, owner, |w|, n) == WeightOfExamples(w, owner, n)
  {
    if n == 0 {
      WeightedEmpty(w, owner, |w|);
    } else {
      DoubleCount(w, owner, n - 1);
      WeightedGrows(w, owner, |w|, n - 1);
    }
  }

  /** If no cluster reaches `bound`, the first m of them hold at most m*(bound-1) examples;
      weights are 0 or 1 and choose the clusters that count. */
  lemma {:induction false} WeightedBound(w: seq<nat>, owner: seq<int>, m: nat, n: nat, bound: nat)
    requires m <= |w| && n <= |owner| && bound >= 1
    requires forall k :: 0 <= k < m ==> w[k] <= 1 && (w[k] == 1 ==> CountOf(owner, k, n) < bound)
    ensures Weighted(w, owner, m, n) <= m * (bound - 1)
    ensures (exists k :: 0 <= k < m && w[k] == 0) ==> Weighted(w, owner, m, n) <= (m - 1) * (bound - 1)
  {
    if m > 0 {
      WeightedBound(w, owner, m - 1, n, bound);
      assert m * (bound - 1) == (m - 1) * (bound - 1) + (bound - 1);
      assert w[m - 1] * CountOf(owner, m - 1, n) <= bound - 1;
      if m > 1 {
        assert (m - 1) * (bound - 1) == (m - 2) * (bound - 1) + (bound - 1);
      }
    }
  }

  function Squares(vs: seq<real>): (s: seq<real>)
    ensures |s| == |vs| && forall i :: 0 <= i < |vs| ==> s[i] == Sq(vs[i])
  {
    seq(|vs|, i requires 0 <= i < |vs| => Sq(vs[i]))
  }

  /** Squared differences to `avg`. */
  function Deviations(vs: seq<real>, avg: real): (s: seq<real>)
    ensures |s| == |vs| && forall i :: 0 <= i < |vs| ==> s[i] == Sq(vs[i] - avg)
  {
    seq(|vs|, i requires 0 <= i < |vs| => Sq(vs[i] - avg))
  }

  function Times(a: real, b: real): real { a * b }

  lemma TimesAdd(a: real, b: real, c: real)
    ensures Times(a, b + c) == Times(a, b) + Times(a, c)
    ensures Times(a, 0.0) == 0.0 && Times(a, 1.0) == a
  {
  }

  /** Sums over a cluster are linear; s and c name the linear sum and the count. */
  lemma {:induction false} SumLinear(owner: seq<int>, z: seq<real>, x: seq<real>, y: seq<real>, a: real, b: real,
                                     k: int, n: nat)
    returns (s: real, c: real)
    requires n <= |owner| && n <= |z| && n <= |x| && n <= |y|
    requires forall i :: 0 <= i < n ==> z[i] == x[i] + Times(a, y[i]) + b
    ensures s == SumOf(owner, y, k, n) && c == CountOf(owner, k, n) as real
    ensures SumOf(owner, z, k, n) == SumOf(owner, x, k, n) + Times(a, s) + Times(b, c)
  {
    hide Times;
    TimesAdd(a, 0.0, 0.0);
    TimesAdd(b, 0.0, 0.0);
    if n == 0 {
      s, c := 0.0, 0.0;
    } else {
      s, c := SumLinear(owner, z, x, y, a, b, k, n - 1);
      if owner[n - 1] == k {
        TimesAdd(a, s, y[n - 1]);
        TimesAdd(b, c, 1.0);
        s, c := s + y[n - 1], c + 1.0;
      }
    }
  }

  lemma SquareExpands(v: real, avg: real)
    ensures Sq(v - avg) == Sq(v) + Times(-2.0 * avg, v) + Sq(avg)
  {
  }

  lemma DeviationsExpand(vs: seq<real>, avg: real)
    ensures forall i :: 0 <= i < |vs| ==>
      Deviations(vs, avg)[i] == Squares(vs)[i] + Times(-2.0 * avg, vs[i]) + Sq(avg)
  {
    hide Times;
    hide Sq;
    forall i | 0 <= i < |vs|
      ensures Deviations(vs, avg)[i] == Squares(vs)[i] + Times(-2.0 * avg, vs[i]) + Sq(avg)
    {
      SquareExpands(vs[i], avg);
    }
  }

  lemma MeanIdentity(s: real, c: real, avg: real)
    requires Times(avg, c) == s
    ensures Times(-2.0 * avg, s) + Times(Sq(avg), c) == -Times(avg, s)
  {
    assert Sq(avg) * c == avg * (avg * c);
  }

  /** About the mean, the squared deviations sum to the square sum less the mean times
      the linear sum: the two-pass deviation needs only the running sums. */
  lemma DeviationAtMean(owner: seq<int>, vs: seq<real>, k: int, n: nat, avg: real) returns (s: real)
    requires n <= |owner| && n <= |vs|
    requires Times(avg, CountOf(owner, k, n) as real) == SumOf(owner, vs, k, n)
    ensures s == SumOf(owner, vs, k, n)
    ensures SumOf(owner, Deviations(vs, avg), k, n) == SumOf(owner, Squares(vs), k, n) - Times(avg, s)
  {
    hide Times;
    hide Sq;
    DeviationsExpand(vs, avg);
    var c;
    s, c := SumLinear(owner, Deviations(vs, avg), Squares(vs), vs, -2.0 * avg, Sq(avg), k, n);
    MeanIdentity(s, c, avg);
  }
}
