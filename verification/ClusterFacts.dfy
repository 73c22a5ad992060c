/** What the statistics of `clustering` mean: counts, distances, deviation, and the
    pigeonhole argument that makes a novelty round accept something. */
module ClusterFacts {
  import opened Points
  import opened Search
  import opened Tallies
  import opened KMeans
  import opened Clustering

  /** A clustering result together with the owner of every example. */
  ghost predicate Clustered(p: Params, xs: seq<Point>, initialId: nat, r: seq<Cluster>, owner: seq<int>)
    requires AllDim(xs, p.dim)
  {
    && 1 <= p.k <= |xs|
    && r == ClusteringOf(p, xs, initialId)
    && owner == Owners(r, xs, p.dim)
  }

  lemma SameOwners(cs: seq<Cluster>, r: seq<Cluster>, xs: seq<Point>, dim: nat)
    requires |cs| == |r| > 0 && ClustersDim(cs, dim) && ClustersDim(r, dim) && AllDim(xs, dim)
    requires forall k :: 0 <= k < |cs| ==> cs[k].center == r[k].center
    ensures Owners(cs, xs, dim) == Owners(r, xs, dim)
  {
    hide Dist2;
    forall i | 0 <= i < |xs| ensures Owners(cs, xs, dim)[i] == Owners(r, xs, dim)[i] {
      SameNearest(cs, r, xs[i], Owners(r, xs, dim)[i], Owners(cs, xs, dim)[i]);
    }
  }

  /** The statistics in terms of the result's own centres. */
  lemma ClusteredStatistics(p: Params, xs: seq<Point>, initialId: nat, r: seq<Cluster>, owner: seq<int>)
    returns (cs: seq<Cluster>, ds: seq<real>)
    requires AllDim(xs, p.dim) && Clustered(p, xs, initialId, r, owner)
    ensures |r| == |cs| == p.k >= 1 && |ds| == |xs| == |owner| && ClustersDim(r, p.dim)
    ensures OwnersIn(owner, xs, p.k)
    ensures forall i :: 0 <= i < |xs| ==> ds[i] == p.root(D2(r[owner[i]].center, xs[i]))
    ensures forall k :: 0 <= k < p.k ==> r[k] == Measured(p, cs[k], owner, ds, k)
  {
    hide Dist2;
    hide Measured;
    hide Iterate;
    hide StartDistance;
    cs := Settled(p, xs, initialId);
    SameOwners(cs, r, xs, p.dim);
    ds := Distances(cs, owner, xs, p.root, p.dim);
  }

  lemma MeasuredFields(p: Params, c: Cluster, owner: seq<int>, ds: seq<real>, k: int)
    requires |owner| == |ds|
    ensures var m := Measured(p, c, owner, ds, k);
      && m.nMatches == CountOf(owner, k, |ds|) && m.distanceMax == MaxOf(owner, ds, k, |ds|)
      && m.distanceLinearSum == SumOf(owner, ds, k, |ds|)
      && m.distanceSquareSum == SumOf(owner, Squares(ds), k, |ds|)
      && m.isSleep == c.isSleep && m.nMisses == c.nMisses
  {
  }

  ghost function TotalMatches(cs: seq<Cluster>, m: nat): nat
    requires m <= |cs|
  {
    if m == 0 then 0 else TotalMatches(cs, m - 1) + cs[m - 1].nMatches
  }

  lemma {:induction false} MatchesAreWeights(cs: seq<Cluster>, owner: seq<int>, w: seq<nat>, m: nat, n: nat)
    requires m <= |cs| == |w| && n <= |owner|
    requires forall k :: 0 <= k < |cs| ==> w[k] == 1 && cs[k].nMatches == CountOf(owner, k, n)
    ensures TotalMatches(cs, m) == Weighted(w, owner, m, n)
  {
    if m > 0 {
      MatchesAreWeights(cs, owner, w, m - 1, n);
      assert w[m - 1] * CountOf(owner, m - 1, n) == CountOf(owner, m - 1, n);
    }
  }

  lemma {:induction false} OnesCountAll(w: seq<nat>, owner: seq<int>, n: nat)
    requires n <= |owner| && forall i :: 0 <= i < n ==> 0 <= owner[i] < |w|
    requires forall k :: 0 <= k < |w| ==> w[k] == 1
    ensures WeightOfExamples(w, owner, n) == n
  {
    if n > 0 {
      OnesCountAll(w, owner, n - 1);
    }
  }

  /** Every example is counted in exactly one cluster. */
  lemma CountsAddUp(p: Params, xs: seq<Point>, initialId: nat, r: seq<Cluster>, owner: seq<int>)
    requires AllDim(xs, p.dim) && Clustered(p, xs, initialId, r, owner)
    ensures |r| == p.k && TotalMatches(r, p.k) == |xs|
  {
    hide Dist2;
    hide Measured;
    hide Clustered;
    var cs, ds := ClusteredStatistics(p, xs, initialId, r, owner);
    var w: seq<nat> := seq(p.k, k => 1);
    forall k | 0 <= k < p.k ensures r[k].nMatches == CountOf(owner, k, |xs|) {
      MeasuredFields(p, cs[k], owner, ds, k);
    }
    MatchesAreWeights(r, owner, w, p.k, |xs|);
    DoubleCount(w, owner, |xs|);
    OnesCountAll(w, owner, |xs|);
  }

  /** Every example lies within the largest distance of the cluster that owns it, its nearest. */
  lemma WithinDistanceMax(p: Params, xs: seq<Point>, initialId: nat, r: seq<Cluster>, owner: seq<int>, i: nat)
    requires AllDim(xs, p.dim) && Clustered(p, xs, initialId, r, owner) && i < |xs|
    ensures |r| == p.k && ClustersDim(r, p.dim) && |owner| == |xs| && 0 <= owner[i] < p.k
    ensures IsNearest(r, false, xs[i], |r|, owner[i])
    ensures p.root(D2(r[owner[i]].center, xs[i])) <= r[owner[i]].distanceMax
  {
    hide Dist2;
    hide Measured;
    hide ClusteringOf;
    var cs, ds := ClusteredStatistics(p, xs, initialId, r, owner);
    MeasuredFields(p, cs[owner[i]], owner, ds, owner[i]);
  }

  lemma {:induction false} SumNonNegative(owner: seq<int>, vs: seq<real>, k: int, n: nat)
    requires n <= |owner| && n <= |vs| && forall i :: 0 <= i < n ==> vs[i] >= 0.0
    ensures SumOf(owner, vs, k, n) >= 0.0
  {
    if n > 0 {
      SumNonNegative(owner, vs, k, n - 1);
    }
  }

  lemma RootSquared(root: real -> real, s: real)
    requires IsExactRoot(root) && s >= 0.0
    ensures Sq(root(s)) == s
  {
  }

  lemma MeanTimesCount(s: real, n: real, avg: real)
    requires n > 0.0 && avg == s / n
    ensures avg * n == s && Times(avg, n) == s
  {
  }

  lemma DeviationIdentity(p: Params, t: Cluster, owner: seq<int>, ds: seq<real>, k: int)
    requires IsExactRoot(p.root) && |owner| == |ds| && t.nMatches == CountOf(owner, k, |ds|) > 0
    requires t.distanceLinearSum == SumOf(owner, ds, k, |ds|)
    requires t.distanceSquareSum == SumOf(owner, Squares(ds), k, |ds|)
    ensures Sq(p.root(SumOf(owner, Deviations(ds, MeanDistance(t)), k, |ds|)))
         == t.distanceSquareSum - MeanDistance(t) * t.distanceLinearSum
    ensures MeanDistance(t) * t.nMatches as real == t.distanceLinearSum
  {
    hide SumOf;
    hide Sq;
    hide IsExactRoot;
    var avg := MeanDistance(t);
    MeanTimesCount(t.distanceLinearSum, t.nMatches as real, avg);
    var devs := Deviations(ds, avg);
    SumNonNegative(owner, devs, k, |ds|);
    RootSquared(p.root, SumOf(owner, devs, k, |ds|));
    var l := DeviationAtMean(owner, ds, k, |ds|, avg);
  }

  lemma MeasuredDeviation(p: Params, c: Cluster, owner: seq<int>, ds: seq<real>, k: int)
    requires |owner| == |ds| && IsExactRoot(p.root)
    ensures var m := Measured(p, c, owner, ds, k);
      m.nMatches > 0 ==>
        && m.distanceAvg * m.nMatches as real == m.distanceLinearSum
        && Sq(m.distanceStdDev) == m.distanceSquareSum - m.distanceAvg * m.distanceLinearSum
        && m.radius == p.radiusF * m.distanceStdDev
  {
    hide SumOf;
    hide Sq;
    hide MeanDistance;
    hide IsExactRoot;
    var t, m := Tallied(c, owner, ds, k, |ds|), Measured(p, c, owner, ds, k);
    if t.nMatches > 0 {
      DeviationIdentity(p, t, owner, ds, k);
    }
  }

  /** The two-pass deviation of every cluster that owns anything: its square is the square sum
      less the mean times the linear sum, that is less the linear sum squared over the count. */
  lemma DeviationFromSums(p: Params, xs: seq<Point>, initialId: nat, r: seq<Cluster>, owner: seq<int>, k: nat)
    requires AllDim(xs, p.dim) && Clustered(p, xs, initialId, r, owner) && k < p.k && IsExactRoot(p.root)
    ensures |r| == p.k
    ensures r[k].nMatches > 0 ==>
      && r[k].distanceAvg * r[k].nMatches as real == r[k].distanceLinearSum
      && Sq(r[k].distanceStdDev) == r[k].distanceSquareSum - r[k].distanceAvg * r[k].distanceLinearSum
      && r[k].radius == p.radiusF * r[k].distanceStdDev
  {
    hide Dist2;
    hide Sq;
    hide Measured;
    hide IsExactRoot;
    hide ClusteringOf;
    var cs, ds := ClusteredStatistics(p, xs, initialId, r, owner);
    MeasuredDeviation(p, cs[k], owner, ds, k);
  }

  /** The distances to cluster k of the examples that it is nearest to, and zero for the others. */
  ghost predicate OwnDistances(p: Params, r: seq<Cluster>, xs: seq<Point>, k: nat, ws: seq<real>)
    requires k < |r| && ClustersDim(r, p.dim) && AllDim(xs, p.dim)
  {
    && |ws| == |xs|
    && forall i :: 0 <= i < |xs| ==>
         ws[i] == if i in OwnedBy(r, xs, p.dim, k) then p.root(D2(r[k].center, xs[i])) else 0.0
  }

  /** Mean, deviation and radius of a cluster with the given sum of distances and of squared deviations. */
  ghost predicate Spread(p: Params, c: Cluster, sum: real, deviations: real) {
    && (c.nMatches == 0 ==> c.radius == 0.0)
    && (c.nMatches > 0 ==>
          && c.distanceAvg * c.nMatches as real == sum
          && c.distanceStdDev == p.root(deviations) && c.radius == p.radiusF * p.root(deviations))
  }

  lemma SpreadFits(p: Params, t: Cluster, s: real)
    requires t.nMatches > 0
    ensures var m := WithDeviation(p, t, s);
      Spread(p, m, t.distanceLinearSum, s) && m.distanceAvg == MeanDistance(t)
  {
    MeanTimesCount(t.distanceLinearSum, t.nMatches as real, MeanDistance(t));
  }

  lemma MeasuredSpread(p: Params, c: Cluster, owner: seq<int>, ds: seq<real>, k: int)
    requires |owner| == |ds|
    ensures var m := Measured(p, c, owner, ds, k);
      Spread(p, m, SumOf(owner, ds, k, |ds|), SumOf(owner, Deviations(ds, m.distanceAvg), k, |ds|))
  {
    hide SumOf;
    hide CountOf;
    hide MaxOf;
    hide Squares;
    hide Deviations;
    hide MeanDistance;
    hide WithDeviation;
    var t := Tallied(c, owner, ds, k, |ds|);
    if t.nMatches > 0 {
      SpreadFits(p, t, SumOf(owner, Deviations(ds, MeanDistance(t)), k, |ds|));
    }
  }

  /** How many examples cluster k is nearest to, and how far the farthest of them is. */
  lemma DescribedCount(p: Params, xs: seq<Point>, initialId: nat, r: seq<Cluster>, k: nat, ws: seq<real>)
    requires AllDim(xs, p.dim) && 1 <= p.k <= |xs| && r == ClusteringOf(p, xs, initialId) && k < p.k
    requires OwnDistances(p, r, xs, k, ws)
    ensures var own := OwnedBy(r, xs, p.dim, k);
      && r[k].nMatches == |own|
      && (forall i :: i in own ==> ws[i] <= r[k].distanceMax)
      && (r[k].distanceMax == 0.0 || exists i :: i in own && ws[i] == r[k].distanceMax)
  {
    hide D2;
    hide Measured;
    hide IsNearest;
    hide ClusteringOf;
    hide CountOf;
    var owner := Owners(r, xs, p.dim);
    OwnersOwn(r, xs, p.dim, k);
    hide OwnedBy;
    hide Owners;
    var cs, ds := ClusteredStatistics(p, xs, initialId, r, owner);
    MeasuredFields(p, cs[k], owner, ds, k);
    assert forall i :: 0 <= i < |xs| && owner[i] == k ==> ws[i] == ds[i];
  }

  /** The sums of their distances, and of the squares of these. */
  lemma DescribedSums(p: Params, xs: seq<Point>, initialId: nat, r: seq<Cluster>, k: nat, ws: seq<real>,
                      qs: seq<real>)
    requires AllDim(xs, p.dim) && 1 <= p.k <= |xs| && r == ClusteringOf(p, xs, initialId) && k < p.k
    requires OwnDistances(p, r, xs, k, ws) && |qs| == |xs|
    requires forall i :: 0 <= i < |xs| ==> qs[i] == if i in OwnedBy(r, xs, p.dim, k) then Sq(ws[i]) else 0.0
    ensures r[k].distanceLinearSum == Total(ws) && r[k].distanceSquareSum == Total(qs)
  {
    hide D2;
    hide Sq;
    hide Measured;
    hide IsNearest;
    hide ClusteringOf;
    hide CountOf;
    hide SumOf;
    var owner := Owners(r, xs, p.dim);
    OwnersOwn(r, xs, p.dim, k);
    hide OwnedBy;
    hide Owners;
    var cs, ds := ClusteredStatistics(p, xs, initialId, r, owner);
    MeasuredFields(p, cs[k], owner, ds, k);
    SumIsTotal(owner, ds, k, |ds|, ws);
    TotalWhole(ws);
    SumIsTotal(owner, Squares(ds), k, |ds|, qs);
    TotalWhole(qs);
  }

  lemma OwnSums(owner: seq<int>, ds: seq<real>, k: int, avg: real, ws: seq<real>, vs: seq<real>)
    requires |owner| == |ds| == |ws| == |vs|
    requires forall i :: 0 <= i < |ds| ==> ws[i] == if owner[i] == k then ds[i] else 0.0
    requires forall i :: 0 <= i < |ds| ==> vs[i] == if owner[i] == k then Sq(ws[i] - avg) else 0.0
    ensures SumOf(owner, ds, k, |ds|) == Total(ws) && SumOf(owner, Deviations(ds, avg), k, |ds|) == Total(vs)
  {
    hide Sq;
    SumIsTotal(owner, ds, k, |ds|, ws);
    TotalWhole(ws);
    SumIsTotal(owner, Deviations(ds, avg), k, |ds|, vs);
    TotalWhole(vs);
  }

  /** The mean of their distances, the root of the sum of squared deviations from it, and the radius;
      vs are the squared deviations, and zero for the other examples. */
  lemma DescribedSpread(p: Params, xs: seq<Point>, initialId: nat, r: seq<Cluster>, k: nat, ws: seq<real>,
                        vs: seq<real>)
    requires AllDim(xs, p.dim) && 1 <= p.k <= |xs| && r == ClusteringOf(p, xs, initialId) && k < p.k
    requires OwnDistances(p, r, xs, k, ws) && |vs| == |xs|
    requires forall i :: 0 <= i < |xs| ==>
      vs[i] == if i in OwnedBy(r, xs, p.dim, k) then Sq(ws[i] - r[k].distanceAvg) else 0.0
    ensures Spread(p, r[k], Total(ws), Total(vs))
  {
    hide D2;
    hide Spread;
    hide Sq;
    hide Measured;
    hide IsNearest;
    hide ClusteringOf;
    hide CountOf;
    hide SumOf;
    hide Total;
    hide Deviations;
    var owner := Owners(r, xs, p.dim);
    OwnersOwn(r, xs, p.dim, k);
    hide OwnedBy;
    hide Owners;
    var cs, ds := ClusteredStatistics(p, xs, initialId, r, owner);
    MeasuredSpread(p, cs[k], owner, ds, k);
    OwnSums(owner, ds, k, r[k].distanceAvg, ws, vs);
  }

  /** 1 for the clusters a novelty round rejects, 0 for those it accepts. */
  ghost function RejectWeights(r: seq<Cluster>, minExamples: nat): (w: seq<nat>)
    ensures |w| == |r|
    ensures forall k :: 0 <= k < |r| ==> w[k] == if r[k].nMatches < minExamples then 1 else 0
  {
    seq(|r|, k requires 0 <= k < |r| => if r[k].nMatches < minExamples then 1 else 0)
  }

  lemma TooManyExamples(k: nat, minExamples: nat, n: nat)
    requires k >= 1 && minExamples >= 1 && n >= minExamples * k
    ensures n > k * (minExamples - 1)
  {
    assert minExamples * k == k * (minExamples - 1) + k;
  }

  /** Pigeonhole on counts alone. */
  lemma SomeClusterReaches(w: seq<nat>, owner: seq<int>, m: nat, n: nat, minExamples: nat)
    requires n <= |owner| && forall i :: 0 <= i < n ==> 0 <= owner[i] < |w|
    requires |w| == m >= 1 && minExamples >= 1 && n >= minExamples * m
    requires forall k :: 0 <= k < |w| ==> w[k] == if CountOf(owner, k, n) < minExamples then 1 else 0
    ensures exists k :: 0 <= k < |w| && w[k] == 0
    ensures WeightOfExamples(w, owner, n) <= (m - 1) * (minExamples - 1)
  {
    hide Weighted;
    hide WeightOfExamples;
    hide CountOf;
    DoubleCount(w, owner, n);
    WeightedBound(w, owner, |w|, n, minExamples);
    TooManyExamples(|w|, minExamples, n);
    if forall k :: 0 <= k < |w| ==> w[k] == 1 {
      OnesCountAll(w, owner, n);
    }
  }

  /** Pigeonhole: with k times `minExamples` examples at least one cluster is accepted, and at
      most (k-1)*(minExamples-1) examples are owned by rejected ones. */
  lemma Pigeonhole(p: Params, xs: seq<Point>, initialId: nat, r: seq<Cluster>, owner: seq<int>)
    requires AllDim(xs, p.dim) && Clustered(p, xs, initialId, r, owner)
    requires p.minExamples >= 1 && |xs| >= p.minExamples * p.k
    ensures |r| == p.k && OwnersIn(owner, xs, p.k)
    ensures exists k :: 0 <= k < p.k && r[k].nMatches >= p.minExamples
    ensures WeightOfExamples(RejectWeights(r, p.minExamples), owner, |xs|) <= (p.k - 1) * (p.minExamples - 1)
  {
    hide Dist2;
    hide Measured;
    hide Clustered;
    hide WeightOfExamples;
    hide CountOf;
    var cs, ds := ClusteredStatistics(p, xs, initialId, r, owner);
    var w := RejectWeights(r, p.minExamples);
    forall k | 0 <= k < p.k ensures r[k].nMatches == CountOf(owner, k, |xs|) {
      MeasuredFields(p, cs[k], owner, ds, k);
    }
    SomeClusterReaches(w, owner, p.k, |xs|, p.minExamples);
    var a :| 0 <= a < p.k && w[a] == 0;
    assert r[a].nMatches >= p.minExamples;
  }

  ghost predicate AllFresh(cs: seq<Cluster>) {
    forall k :: 0 <= k < |cs| ==> !cs[k].isSleep && cs[k].nMisses == 0
  }

  lemma {:induction false} IterateKeepsFresh(p: Params, cs: seq<Cluster>, xs: seq<Point>, prev: real, iteration: nat)
    requires |cs| > 0 && WellFormed(cs, p.dim) && AllDim(xs, p.dim) && iteration < 100 && AllFresh(cs)
    ensures AllFresh(Iterate(p, cs, xs, prev, iteration).0)
    decreases 100 - iteration
  {
    hide Owners;
    hide TotalDistance;
    var distance := TotalDistance(cs, Owners(cs, xs, p.dim), xs, p.root, p.dim, |xs|);
    if Abs(distance - prev) > p.precision && iteration + 1 < 100 {
      IterateKeepsFresh(p, Pass(cs, xs, p.dim), xs, distance, iteration + 1);
    }
  }

  /** Clusters come out of `clustering` awake and with no misses. */
  lemma ClustersArriveFresh(p: Params, xs: seq<Point>, initialId: nat)
    requires 1 <= p.k <= |xs| && AllDim(xs, p.dim)
    ensures AllFresh(ClusteringOf(p, xs, initialId))
  {
    hide Iterate;
    hide Owners;
    hide Measured;
    IterateKeepsFresh(p, InitClusters(p, xs, initialId), xs, StartDistance(p, |xs|), 0);
    var cs := Settled(p, xs, initialId);
    var owner := Owners(cs, xs, p.dim);
    var ds := Distances(cs, owner, xs, p.root, p.dim);
    forall k | 0 <= k < p.k
      ensures !ClusteringOf(p, xs, initialId)[k].isSleep && ClusteringOf(p, xs, initialId)[k].nMisses == 0
    {
      MeasuredFields(p, cs[k], owner, ds, k);
    }
  }
}
