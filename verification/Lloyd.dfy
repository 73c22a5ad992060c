/** Descent of k-means: a pass entered with zero sums never raises the total squared
    distance of the examples to their nearest centres. */
module Lloyd {
  import opened Points
  import opened Search
  import opened Tallies
  import opened KMeans

  /** Total squared distance of the first n examples to the centres of their owners. */
  ghost function Cost(cs: seq<Cluster>, owner: seq<int>, xs: seq<Point>, dim: nat, n: nat): (c: real)
    requires ClustersDim(cs, dim) && AllDim(xs, dim) && OwnersIn(owner, xs, |cs|) && n <= |xs|
    ensures c >= 0.0
  {
    if n == 0 then 0.0 else Cost(cs, owner, xs, dim, n - 1) + D2(cs[owner[n - 1]].center, xs[n - 1])
  }

  /** Total squared distance to the nearest centres. */
  ghost function Potential(cs: seq<Cluster>, xs: seq<Point>, dim: nat): real
    requires |cs| > 0 && ClustersDim(cs, dim) && AllDim(xs, dim)
  {
    Cost(cs, Owners(cs, xs, dim), xs, dim, |xs|)
  }

  /** No assignment is cheaper than the one to nearest centres. */
  lemma {:induction false} NearestIsCheapest(cs: seq<Cluster>, owner: seq<int>, xs: seq<Point>, dim: nat, n: nat)
    requires |cs| > 0 && ClustersDim(cs, dim) && AllDim(xs, dim) && OwnersIn(owner, xs, |cs|) && n <= |xs|
    ensures Cost(cs, Owners(cs, xs, dim), xs, dim, n) <= Cost(cs, owner, xs, dim, n)
  {
    hide Dist2;
    if n > 0 {
      NearestIsCheapest(cs, owner, xs, dim, n - 1);
      assert Looked(cs, false, owner[n - 1]);
    }
  }

  lemma {:induction false} SameCost(cs: seq<Cluster>, ds: seq<Cluster>, owner: seq<int>, xs: seq<Point>, dim: nat,
                                    n: nat)
    requires |cs| == |ds| && ClustersDim(cs, dim) && ClustersDim(ds, dim) && AllDim(xs, dim)
    requires OwnersIn(owner, xs, |cs|) && n <= |xs|
    requires forall k :: 0 <= k < |cs| ==> cs[k].center == ds[k].center
    ensures Cost(cs, owner, xs, dim, n) == Cost(ds, owner, xs, dim, n)
  {
    if n > 0 {
      SameCost(cs, ds, owner, xs, dim, n - 1);
    }
  }

  lemma SamePotential(cs: seq<Cluster>, ds: seq<Cluster>, xs: seq<Point>, dim: nat)
    requires |cs| == |ds| > 0 && ClustersDim(cs, dim) && ClustersDim(ds, dim) && AllDim(xs, dim)
    requires forall k :: 0 <= k < |cs| ==> cs[k].center == ds[k].center
    ensures Potential(cs, xs, dim) == Potential(ds, xs, dim)
  {
    hide D2;
    hide IsNearest;
    SameCost(cs, ds, Owners(cs, xs, dim), xs, dim, |xs|);
    SameCost(ds, cs, Owners(ds, xs, dim), xs, dim, |xs|);
    NearestIsCheapest(cs, Owners(ds, xs, dim), xs, dim, |xs|);
    NearestIsCheapest(ds, Owners(cs, xs, dim), xs, dim, |xs|);
  }

  ghost function GainAt(s: real, n: real, c: real): real {
    2.0 * (s * c) - n * Sq(c)
  }

  /** What the points summed in `sum` (n of them) save when measured from centre c. */
  ghost function Gain(sum: Point, n: real, c: Point, dim: nat): real
    requires dim <= |sum| && dim <= |c|
  {
    if dim == 0 then 0.0
    else Gain(sum, n, c, dim - 1) + GainAt(sum[dim - 1], n, c[dim - 1])
  }

  ghost function Norm(x: Point, dim: nat): real
    requires dim <= |x|
  {
    if dim == 0 then 0.0 else Norm(x, dim - 1) + Sq(x[dim - 1])
  }

  lemma GainAtAdd(s: real, x: real, n: real, c: real, s': real, n': real)
    requires s' == s + x && n' == n + 1.0
    ensures GainAt(s', n', c) == GainAt(s, n, c) + Sq(x) - Sq(c - x)
  {
    assert n' * (c * c) == n * (c * c) + c * c;
  }

  /** Adding x to the sum changes the gain by what x costs at the origin less what it costs at c. */
  lemma {:induction false} GainAdd(sum: Point, x: Point, n: real, c: Point, sum': Point, n': real, dim: nat)
    requires |sum| == |x| == |c| == |sum'| && dim <= |x|
    requires n' == n + 1.0 && forall d :: 0 <= d < dim ==> sum'[d] == sum[d] + x[d]
    ensures Gain(sum', n', c, dim) == Gain(sum, n, c, dim) + Norm(x, dim) - Dist2(c, x, dim)
  {
    if dim > 0 {
      GainAdd(sum, x, n, c, sum', n', dim - 1);
      GainAtAdd(sum[dim - 1], x[dim - 1], n, c[dim - 1], sum'[dim - 1], n');
    }
  }

  lemma GainAtMean(s: real, n: real, c: real, m: real)
    requires n > 0.0 && m * n == s
    ensures GainAt(s, n, c) <= GainAt(s, n, m)
  {
    assert s * c == n * (m * c) && s * m == n * (m * m);
    assert (c - m) * (c - m) == c * c - 2.0 * (m * c) + m * m;
    assert GainAt(s, n, m) - GainAt(s, n, c) == n * Sq(c - m);
  }

  /** The mean is the best centre. */
  lemma {:induction false} GainMean(sum: Point, n: nat, c: Point, dim: nat)
    requires n > 0 && |sum| == |c| && dim <= |sum|
    ensures Gain(sum, n as real, c, dim) <= Gain(sum, n as real, Mean(sum, n), dim)
  {
    if dim > 0 {
      GainMean(sum, n, c, dim - 1);
      GainAtMean(sum[dim - 1], n as real, c[dim - 1], Mean(sum, n)[dim - 1]);
    }
  }

  /** The gains of clusters 0..m over the first n examples. */
  ghost function Gains(cs: seq<Cluster>, owner: seq<int>, xs: seq<Point>, dim: nat, m: nat, n: nat): real
    requires ClustersDim(cs, dim) && AllDim(xs, dim) && m <= |cs| && n <= |owner| && n <= |xs|
  {
    if m == 0 then 0.0
    else Gains(cs, owner, xs, dim, m - 1, n)
         + Gain(SumFrom(Zeros(dim), owner, xs, m - 1, n), CountOf(owner, m - 1, n) as real, cs[m - 1].center, dim)
  }

  lemma {:induction false} GainZero(c: Point, dim: nat, d: nat)
    requires |c| == dim && d <= dim
    ensures Gain(Zeros(dim), 0.0, c, d) == 0.0
  {
    if d > 0 {
      GainZero(c, dim, d - 1);
    }
  }

  lemma {:induction false} GainsEmpty(cs: seq<Cluster>, owner: seq<int>, xs: seq<Point>, dim: nat, m: nat)
    requires ClustersDim(cs, dim) && AllDim(xs, dim) && m <= |cs|
    ensures Gains(cs, owner, xs, dim, m, 0) == 0.0
  {
    if m > 0 {
      GainsEmpty(cs, owner, xs, dim, m - 1);
      GainZero(cs[m - 1].center, dim, dim);
    }
  }

  lemma {:induction false} GainsAdd(cs: seq<Cluster>, owner: seq<int>, xs: seq<Point>, dim: nat, m: nat, n: nat)
    requires ClustersDim(cs, dim) && AllDim(xs, dim) && OwnersIn(owner, xs, |cs|) && m <= |cs| && n < |xs|
    ensures Gains(cs, owner, xs, dim, m, n + 1) == Gains(cs, owner, xs, dim, m, n)
      + (if owner[n] < m then Norm(xs[n], dim) - D2(cs[owner[n]].center, xs[n]) else 0.0)
  {
    if m > 0 {
      GainsAdd(cs, owner, xs, dim, m - 1, n);
      if owner[n] == m - 1 {
        GainAdd(SumFrom(Zeros(dim), owner, xs, m - 1, n), xs[n], CountOf(owner, m - 1, n) as real, cs[m - 1].center,
                SumFrom(Zeros(dim), owner, xs, m - 1, n + 1), CountOf(owner, m - 1, n + 1) as real, dim);
      }
    }
  }

  ghost function Norms(xs: seq<Point>, dim: nat, n: nat): real
    requires AllDim(xs, dim) && n <= |xs|
  {
    if n == 0 then 0.0 else Norms(xs, dim, n - 1) + Norm(xs[n - 1], dim)
  }

  /** The cost depends on the centres only through the running sums and counts. */
  lemma {:induction false} CostByGains(cs: seq<Cluster>, owner: seq<int>, xs: seq<Point>, dim: nat, n: nat)
    requires ClustersDim(cs, dim) && AllDim(xs, dim) && OwnersIn(owner, xs, |cs|) && n <= |xs|
    ensures Cost(cs, owner, xs, dim, n) == Norms(xs, dim, n) - Gains(cs, owner, xs, dim, |cs|, n)
  {
    if n == 0 {
      GainsEmpty(cs, owner, xs, dim, |cs|);
    } else {
      CostByGains(cs, owner, xs, dim, n - 1);
      GainsAdd(cs, owner, xs, dim, |cs|, n - 1);
    }
  }

  ghost predicate AtMean(c: Point, c': Point, owner: seq<int>, xs: seq<Point>, dim: nat, k: int)
    requires AllDim(xs, dim) && |owner| == |xs|
  {
    var n := CountOf(owner, k, |xs|);
    c' == if n > 0 then Mean(SumFrom(Zeros(dim), owner, xs, k, |xs|), n) else c
  }

  /** Every cluster that owns an example sits at the mean of what it owns; the others did not move. */
  ghost predicate MovedToMeans(cs: seq<Cluster>, cs': seq<Cluster>, owner: seq<int>, xs: seq<Point>, dim: nat)
    requires AllDim(xs, dim) && |owner| == |xs|
  {
    |cs| == |cs'| && forall k :: 0 <= k < |cs| ==> AtMean(cs[k].center, cs'[k].center, owner, xs, dim, k)
  }

  lemma {:induction false} GainsAtMeans(cs: seq<Cluster>, cs': seq<Cluster>, owner: seq<int>, xs: seq<Point>,
                                        dim: nat, m: nat)
    requires ClustersDim(cs, dim) && ClustersDim(cs', dim) && AllDim(xs, dim) && OwnersIn(owner, xs, |cs|)
    requires MovedToMeans(cs, cs', owner, xs, dim) && m <= |cs|
    ensures Gains(cs, owner, xs, dim, m, |xs|) <= Gains(cs', owner, xs, dim, m, |xs|)
  {
    if m > 0 {
      GainsAtMeans(cs, cs', owner, xs, dim, m - 1);
      var n := CountOf(owner, m - 1, |xs|);
      if n > 0 {
        GainMean(SumFrom(Zeros(dim), owner, xs, m - 1, |xs|), n, cs[m - 1].center, dim);
      }
    }
  }

  /** Moving to the means never costs more, whatever the assignment. */
  lemma MeansCheaper(cs: seq<Cluster>, cs': seq<Cluster>, owner: seq<int>, xs: seq<Point>, dim: nat)
    requires |cs| == |cs'| && ClustersDim(cs, dim) && ClustersDim(cs', dim) && AllDim(xs, dim)
    requires OwnersIn(owner, xs, |cs|) && MovedToMeans(cs, cs', owner, xs, dim)
    ensures Cost(cs', owner, xs, dim, |xs|) <= Cost(cs, owner, xs, dim, |xs|)
  {
    CostByGains(cs, owner, xs, dim, |xs|);
    CostByGains(cs', owner, xs, dim, |xs|);
    GainsAtMeans(cs, cs', owner, xs, dim, |cs|);
  }

  /** One Lloyd step: assign to the nearest, move to the means, and the potential does not rise. */
  lemma LloydStep(cs: seq<Cluster>, cs': seq<Cluster>, xs: seq<Point>, dim: nat)
    requires |cs| == |cs'| > 0 && ClustersDim(cs, dim) && ClustersDim(cs', dim) && AllDim(xs, dim)
    requires MovedToMeans(cs, cs', Owners(cs, xs, dim), xs, dim)
    ensures Potential(cs', xs, dim) <= Potential(cs, xs, dim)
  {
    hide IsNearest;
    hide Dist2;
    hide MovedToMeans;
    MeansCheaper(cs, cs', Owners(cs, xs, dim), xs, dim);
    NearestIsCheapest(cs', Owners(cs, xs, dim), xs, dim, |xs|);
  }

  /** A pass entered with zero sums and counts is a Lloyd step, and leaves them at zero. */
  lemma CleanPassDescends(cs: seq<Cluster>, xs: seq<Point>, dim: nat)
    requires |cs| > 0 && Clean(cs, dim) && AllDim(xs, dim)
    ensures Clean(Pass(cs, xs, dim), dim)
    ensures Potential(Pass(cs, xs, dim), xs, dim) <= Potential(cs, xs, dim)
  {
    LloydStep(cs, Pass(cs, xs, dim), xs, dim);
  }

  /** From clean sums, the whole loop never raises the potential. */
  lemma {:induction false} LoopDescends(p: Params, cs: seq<Cluster>, xs: seq<Point>, prev: real, iteration: nat)
    requires |cs| > 0 && Clean(cs, p.dim) && AllDim(xs, p.dim) && iteration < 100
    ensures Potential(Iterate(p, cs, xs, prev, iteration).0, xs, p.dim) <= Potential(cs, xs, p.dim)
    decreases 100 - iteration
  {
    CleanPassDescends(cs, xs, p.dim);
    var distance := TotalDistance(cs, Owners(cs, xs, p.dim), xs, p.root, p.dim, |xs|);
    if Abs(distance - prev) > p.precision && iteration + 1 < 100 {
      LoopDescends(p, Pass(cs, xs, p.dim), xs, distance, iteration + 1);
    }
  }

  /** Whatever the sums start at, the potential does not rise after the first pass. */
  lemma DescentFromSecondPass(p: Params, cs: seq<Cluster>, xs: seq<Point>, prev: real)
    requires |cs| > 0 && WellFormed(cs, p.dim) && AllDim(xs, p.dim)
    ensures Potential(Iterate(p, cs, xs, prev, 0).0, xs, p.dim) <= Potential(Pass(cs, xs, p.dim), xs, p.dim)
  {
    var distance := TotalDistance(cs, Owners(cs, xs, p.dim), xs, p.root, p.dim, |xs|);
    if Abs(distance - prev) > p.precision {
      LoopDescends(p, Pass(cs, xs, p.dim), xs, distance, 1);
    }
  }

  /** From the second pass of a run on, no pass raises the potential. */
  lemma {:induction false} RunDescends(p: Params, xs: seq<Point>, c: seq<seq<Cluster>>, d: seq<real>, i: nat, j: nat)
    requires Passes(p, xs, c, d) && 1 <= i <= j <= |d|
    ensures Potential(c[j], xs, p.dim) <= Potential(c[i], xs, p.dim)
  {
    hide Potential;
    hide Reports;
    if i < j {
      RunDescends(p, xs, c, d, i, j - 1);
      assert c[j] == Pass(c[j - 1], xs, p.dim) && c[j - 2 + 1] == Pass(c[j - 2], xs, p.dim);
      CleanPassDescends(c[j - 1], xs, p.dim);
    }
  }

  lemma {:induction false} SumFromSplits(init: Point, owner: seq<int>, xs: seq<Point>, k: int, n: nat)
    requires n <= |owner| && n <= |xs| && AllDim(xs, |init|)
    ensures SumFrom(init, owner, xs, k, n) == Add(init, SumFrom(Zeros(|init|), owner, xs, k, n))
  {
    if n > 0 {
      SumFromSplits(init, owner, xs, k, n - 1);
    }
  }

  lemma QuotientSame(a: real, s: real, n: real)
    requires n > 0.0
    ensures (a + s) / n == s / n <==> a == 0.0
  {
    if (a + s) / n == s / n {
      assert a + s == (a + s) / n * n;
      assert s == s / n * n;
    }
  }

  lemma MeanSame(init: Point, s: Point, n: nat)
    requires n > 0 && |init| == |s|
    ensures Mean(Add(init, s), n) == Mean(s, n) <==> init == Zeros(|init|)
  {
    forall d | 0 <= d < |s|
      ensures Mean(Add(init, s), n)[d] == Mean(s, n)[d] <==> init[d] == 0.0
    {
      QuotientSame(init[d], s[d], n as real);
    }
  }

  lemma RecentredAtMean(c: Cluster, owner: seq<int>, xs: seq<Point>, dim: nat, k: int)
    requires |c.center| == |c.linearSum| == dim && AllDim(xs, dim) && |owner| == |xs| && c.nMatches == 0
    ensures AtMean(c.center, Recentred(c, owner, xs, k).center, owner, xs, dim, k)
       <==> c.linearSum == Zeros(dim) || CountOf(owner, k, |xs|) == 0
  {
    SumFromSplits(c.linearSum, owner, xs, k, |xs|);
    if CountOf(owner, k, |xs|) > 0 {
      MeanSame(c.linearSum, SumFrom(Zeros(dim), owner, xs, k, |xs|), CountOf(owner, k, |xs|));
    }
  }

  /** `kMeansInit` starts every linear sum at its seed but does not count it. The first pass is
      then the intended Lloyd step exactly when each seed is the origin or owns nothing. */
  lemma FirstPassIntended(cs: seq<Cluster>, xs: seq<Point>, dim: nat, owner: seq<int>)
    requires |cs| > 0 && WellFormed(cs, dim) && AllDim(xs, dim) && owner == Owners(cs, xs, dim)
    requires forall k :: 0 <= k < |cs| ==> cs[k].nMatches == 0
    ensures MovedToMeans(cs, Pass(cs, xs, dim), owner, xs, dim)
       <==> forall k :: 0 <= k < |cs| ==> cs[k].linearSum == Zeros(dim) || CountOf(owner, k, |xs|) == 0
  {
    forall k | 0 <= k < |cs|
      ensures AtMean(cs[k].center, Pass(cs, xs, dim)[k].center, owner, xs, dim, k)
         <==> cs[k].linearSum == Zeros(dim) || CountOf(owner, k, |xs|) == 0
    {
      RecentredAtMean(cs[k], owner, xs, dim, k);
    }
  }

  lemma ProductPositive(a: real, b: real, c: real)
    requires a > 0.0 && b > 0.0 && c == a * b
    ensures c > 0.0
  {
  }

  lemma SqZero(v: real)
    ensures Sq(v) == 0.0 <==> v == 0.0
  {
    if v > 0.0 {
      ProductPositive(v, v, Sq(v));
    } else if v < 0.0 {
      ProductPositive(-v, -v, Sq(v));
    }
  }

  /** Points are no distance apart only if they are the same. */
  lemma {:induction false} NoDistance(a: Point, b: Point, n: nat)
    requires n <= |a| && n <= |b|
    ensures Dist2(a, b, n) == 0.0 <==> a[..n] == b[..n]
  {
    if n > 0 {
      NoDistance(a, b, n - 1);
      SqZero(a[n - 1] - b[n - 1]);
      assert a[..n] == a[..n - 1] + [a[n - 1]] && b[..n] == b[..n - 1] + [b[n - 1]];
    }
  }

  lemma {:induction false} CountNone(owner: seq<int>, k: int, n: nat)
    requires n <= |owner|
    ensures CountOf(owner, k, n) == 0 <==> forall i :: 0 <= i < n ==> owner[i] != k
  {
    if n > 0 {
      CountNone(owner, k, n - 1);
    }
  }

  /** The seed occurs again later among the seeds. */
  ghost predicate SeededAgain(xs: seq<Point>, k: nat, i: nat)
    requires k <= |xs| && i < k
  {
    exists j :: i < j < k && xs[j] == xs[i]
  }

  /** Of two clusters at one place the earlier is never nearest. */
  lemma LaterTakes(cs: seq<Cluster>, x: Point, i: nat, j: nat, o: int)
    requires ClustersDim(cs, |x|) && IsNearest(cs, false, x, |cs|, o)
    requires i < j < |cs| && cs[i].center == cs[j].center
    ensures o != i
  {
    hide D2;
    assert Looked(cs, false, j);
  }

  /** A cluster at a point that no later cluster is at is nearest to it. */
  lemma OwnTakes(cs: seq<Cluster>, x: Point, i: nat, o: int)
    requires ClustersDim(cs, |x|) && IsNearest(cs, false, x, |cs|, o)
    requires i < |cs| && cs[i].center == x && forall j :: i < j < |cs| ==> cs[j].center != x
    ensures o == i
  {
    hide Dist2;
    assert Looked(cs, false, i);
    NoDistance(x, x, |x|);
    NoDistance(cs[o].center, x, |x|);
    assert cs[o].center[..|x|] == cs[o].center && x[..|x|] == x;
  }

  /** In the first pass a cluster owns nothing exactly if its seed occurs again later: ties go to the
      last, and otherwise it is alone nearest to its own seed. */
  lemma OwnsNothing(p: Params, xs: seq<Point>, initialId: nat, i: nat)
    requires i < p.k <= |xs| && AllDim(xs, p.dim)
    ensures CountOf(Owners(InitClusters(p, xs, initialId), xs, p.dim), i, |xs|) == 0 <==> SeededAgain(xs, p.k, i)
  {
    hide IsNearest;
    hide CountOf;
    var cs := InitClusters(p, xs, initialId);
    var owner := Owners(cs, xs, p.dim);
    CountNone(owner, i, |xs|);
    if SeededAgain(xs, p.k, i) {
      var j :| i < j < p.k && xs[j] == xs[i];
      forall e | 0 <= e < |xs| ensures owner[e] != i {
        LaterTakes(cs, xs[e], i, j, owner[e]);
      }
    } else {
      OwnTakes(cs, xs[i], i, owner[i]);
    }
  }

  /** The same condition on the seeds alone: each is the origin, or occurs again later among the
      first k examples. */
  lemma FirstPassOnSeeds(p: Params, xs: seq<Point>, initialId: nat)
    requires 1 <= p.k <= |xs| && AllDim(xs, p.dim)
    ensures var cs := InitClusters(p, xs, initialId);
      MovedToMeans(cs, Pass(cs, xs, p.dim), Owners(cs, xs, p.dim), xs, p.dim)
      <==> forall i :: 0 <= i < p.k ==> xs[i] == Zeros(p.dim) || SeededAgain(xs, p.k, i)
  {
    hide Owners;
    hide Pass;
    hide SeededAgain;
    hide MovedToMeans;
    var cs := InitClusters(p, xs, initialId);
    FirstPassIntended(cs, xs, p.dim, Owners(cs, xs, p.dim));
    forall i | 0 <= i < p.k
      ensures CountOf(Owners(cs, xs, p.dim), i, |xs|) == 0 <==> SeededAgain(xs, p.k, i)
    {
      OwnsNothing(p, xs, initialId, i);
    }
  }

  /** On such seeds descent holds from the first pass on. */
  lemma DescentFromFirstPass(p: Params, xs: seq<Point>, initialId: nat, prev: real)
    requires 1 <= p.k <= |xs| && AllDim(xs, p.dim)
    requires forall i :: 0 <= i < p.k ==> xs[i] == Zeros(p.dim) || SeededAgain(xs, p.k, i)
    ensures var cs := InitClusters(p, xs, initialId);
      && Potential(Pass(cs, xs, p.dim), xs, p.dim) <= Potential(cs, xs, p.dim)
      && Potential(Iterate(p, cs, xs, prev, 0).0, xs, p.dim) <= Potential(cs, xs, p.dim)
  {
    hide Owners;
    hide Pass;
    hide Potential;
    hide MovedToMeans;
    hide SeededAgain;
    hide Iterate;
    var cs := InitClusters(p, xs, initialId);
    FirstPassOnSeeds(p, xs, initialId);
    LloydStep(cs, Pass(cs, xs, p.dim), xs, p.dim);
    DescentFromSecondPass(p, cs, xs, prev);
  }

  /** One cluster and one example: the potential is one squared coordinate difference. */
  lemma PotentialOfOne(cs: seq<Cluster>, xs: seq<Point>, c: real, x: real, d: real)
    requires |cs| == 1 && |xs| == 1 && cs[0].center == [c] && xs[0] == [x] && d == c - x
    ensures Owners(cs, xs, 1) == [0] && Potential(cs, xs, 1) == Sq(d)
  {
    var owner := Owners(cs, xs, 1);
    assert owner[0] == 0;
    assert Dist2(cs[0].center, xs[0], 1) == Dist2(cs[0].center, xs[0], 0) + Sq(d);
    assert Cost(cs, owner, xs, 1, 1) == Cost(cs, owner, xs, 1, 0) + D2(cs[0].center, xs[0]);
  }

  lemma SeedCountedOnce(c: Cluster, owner: seq<int>, xs: seq<Point>, x: real)
    requires c.linearSum == [x] && c.nMatches == 0 && |xs| == 1 && xs[0] == [x] && owner == [0]
    ensures Recentred(c, owner, xs, 0).center == [x + x]
  {
    assert CountOf(owner, 0, 1) == CountOf(owner, 0, 0) + 1;
    assert SumFrom(c.linearSum, owner, xs, 0, 1) == Add(SumFrom(c.linearSum, owner, xs, 0, 0), xs[0]);
    var m := Mean(Add([x], [x]), 1);
    assert m[0] == x + x;
  }

  /** The first pass can raise the potential: one example at x and one cluster seeded from it
      end with the centre at 2x, as the seed is summed twice and counted once. */
  lemma FirstPassMayRise(p: Params, xs: seq<Point>, x: real)
    requires p.k == 1 && p.dim == 1 && |xs| == 1 && xs[0] == [x]
    ensures Potential(InitClusters(p, xs, 0), xs, 1) == 0.0
    ensures Potential(Pass(InitClusters(p, xs, 0), xs, 1), xs, 1) == Sq(x)
  {
    hide Recentred;
    hide Potential;
    hide IsNearest;
    hide Owners;
    assert Sq(0.0) == 0.0;
    var cs := InitClusters(p, xs, 0);
    PotentialOfOne(cs, xs, x, x, 0.0);
    SeedCountedOnce(cs[0], [0], xs, x);
    PotentialOfOne(Pass(cs, xs, 1), xs, x + x, x, x);
  }
}
