/** Clusters with their statistics (src/base.c `clustering`). */
module Clustering {
  import opened Points
  import opened Search
  import opened Tallies
  import opened KMeans
  import opened Lloyd

  /** Distance of each example to the centre of its owner. */
  function Distances(cs: seq<Cluster>, owner: seq<int>, xs: seq<Point>, root: real -> real, dim: nat): (ds: seq<real>)
    requires ClustersDim(cs, dim) && AllDim(xs, dim) && OwnersIn(owner, xs, |cs|)
    ensures |ds| == |xs| && forall i :: 0 <= i < |xs| ==> ds[i] == root(D2(cs[owner[i]].center, xs[i]))
  {
    seq(|xs|, i requires 0 <= i < |xs| => root(D2(cs[owner[i]].center, xs[i])))
  }

  /** The running statistics of cluster k over the first n examples. */
  function Tallied(c: Cluster, owner: seq<int>, ds: seq<real>, k: int, n: nat): Cluster
    requires n <= |owner| && n <= |ds|
  {
    c.(radius := 0.0, nMatches := CountOf(owner, k, n), distanceMax := MaxOf(owner, ds, k, n),
       distanceLinearSum := SumOf(owner, ds, k, n), distanceSquareSum := SumOf(owner, Squares(ds), k, n))
  }

  function MeanDistance(t: Cluster): real
    requires t.nMatches > 0
  {
    t.distanceLinearSum / t.nMatches as real
  }

  /** Mean, deviation and radius, from the sum s of squared deviations. */
  function WithDeviation(p: Params, t: Cluster, s: real): Cluster
    requires t.nMatches > 0
  {
    t.(distanceAvg := MeanDistance(t), distanceStdDev := p.root(s), radius := p.radiusF * p.root(s))
  }

  /** The final statistics: mean distance, deviation and radius of a cluster that owns anything. */
  function Measured(p: Params, c: Cluster, owner: seq<int>, ds: seq<real>, k: int): Cluster
    requires |owner| == |ds|
  {
    var t := Tallied(c, owner, ds, k, |ds|);
    if t.nMatches == 0 then t
    else WithDeviation(p, t, SumOf(owner, Deviations(ds, MeanDistance(t)), k, |ds|))
  }

  /** The centres that k-means settles on. */
  function Settled(p: Params, xs: seq<Point>, initialId: nat): (cs: seq<Cluster>)
    requires 1 <= p.k <= |xs| && AllDim(xs, p.dim)
    ensures |cs| == p.k && WellFormed(cs, p.dim) && ClustersDim(cs, p.dim)
  {
    Iterate(p, InitClusters(p, xs, initialId), xs, StartDistance(p, |xs|), 0).0
  }

  /** The statistics of all clusters. */
  function MeasureAll(p: Params, cs: seq<Cluster>, owner: seq<int>, ds: seq<real>): (r: seq<Cluster>)
    requires |owner| == |ds|
    ensures |r| == |cs|
    ensures forall k :: 0 <= k < |cs| ==> r[k] == Measured(p, cs[k], owner, ds, k) && r[k].center == cs[k].center
  {
    seq(|cs|, k requires 0 <= k < |cs| => Measured(p, cs[k], owner, ds, k))
  }

  /** The whole result of `clustering`. */
  function ClusteringOf(p: Params, xs: seq<Point>, initialId: nat): (r: seq<Cluster>)
    requires 1 <= p.k <= |xs| && AllDim(xs, p.dim)
    ensures |r| == p.k && ClustersDim(r, p.dim)
  {
    var cs := Settled(p, xs, initialId);
    var owner := Owners(cs, xs, p.dim);
    MeasureAll(p, cs, owner, Distances(cs, owner, xs, p.root, p.dim))
  }

  /** The result comes from a run of passes, c[0], c[1] and so on, that starts at the first k examples,
      each in its cluster's linear sum, and stops as the loop does; its centres are those the run ends
      with, and from the second pass on the run did not raise the potential. */
  ghost predicate FromRun(p: Params, xs: seq<Point>, initialId: nat, result: seq<Cluster>, c: seq<seq<Cluster>>,
                          d: seq<real>)
  {
    && p.k <= |xs| && AllDim(xs, p.dim) && |result| > 0 && ClustersDim(result, p.dim)
    && Ran(p, xs, ((p.dim * p.k * |xs| * 2) % 0x1_0000_0000) as real, c, d)
    && |c[0]| == |result| == p.k
    && (forall i :: 0 <= i < p.k ==>
          c[0][i] == Cluster(initialId + i, 0, 0, 0, 0, 0, false, xs[i], xs[i], 0.0, 0.0, 0.0, 0.0, 0.0, 0.0))
    && |c[|d|]| == p.k && (forall k :: 0 <= k < p.k ==> result[k].center == c[|d|][k].center)
    && Potential(result, xs, p.dim) <= Potential(c[1], xs, p.dim)
  }

  lemma StartRunning(p: Params, xs: seq<Point>, start: real, cs: seq<Cluster>)
    requires |cs| > 0 && WellFormed(cs, p.dim) && AllDim(xs, p.dim)
    ensures Running(p, xs, start, [cs], [], cs, start)
  {
  }

  /** Where the centres come from. */
  lemma SettledFromRun(p: Params, xs: seq<Point>, initialId: nat, result: seq<Cluster>)
    returns (c: seq<seq<Cluster>>, d: seq<real>)
    requires 1 <= p.k <= |xs| && AllDim(xs, p.dim) && |result| == p.k && ClustersDim(result, p.dim)
    requires forall k :: 0 <= k < p.k ==> result[k].center == Settled(p, xs, initialId)[k].center
    ensures FromRun(p, xs, initialId, result, c, d)
  {
    hide Pass;
    hide Potential;
    hide Reports;
    hide Unsettled;
    hide Iterate;
    var start, seeds := StartDistance(p, |xs|), InitClusters(p, xs, initialId);
    StartRunning(p, xs, start, seeds);
    c, d := IterateRuns(p, xs, start, [seeds], [], seeds, start);
    RunDescends(p, xs, c, d, 1, |d|);
    SamePotential(result, c[|d|], xs, p.dim);
  }

  ghost predicate TalliedAll(now: seq<Cluster>, cs: seq<Cluster>, owner: seq<int>, ds: seq<real>, n: nat)
    requires n <= |owner| && n <= |ds|
  {
    |now| == |cs| && forall k :: 0 <= k < |cs| ==> now[k] == Tallied(cs[k], owner, ds, k, n)
  }

  /** Counts a distance in its cluster's statistics. */
  function Noted(c: Cluster, dist: real): Cluster {
    var d := c.(nMatches := c.nMatches + 1, distanceLinearSum := c.distanceLinearSum + dist,
                distanceSquareSum := c.distanceSquareSum + Sq(dist));
    if dist > c.distanceMax then d.(distanceMax := dist) else d
  }

  lemma TallyStep(now: seq<Cluster>, cs: seq<Cluster>, owner: seq<int>, ds: seq<real>, i: nat)
    requires i < |owner| == |ds| && 0 <= owner[i] < |cs| && TalliedAll(now, cs, owner, ds, i)
    ensures TalliedAll(now[owner[i] := Noted(now[owner[i]], ds[i])], cs, owner, ds, i + 1)
  {
    forall k | 0 <= k < |cs| && k != owner[i] ensures now[k] == Tallied(cs[k], owner, ds, k, i + 1) {}
  }

  /** The statistics start at zero. */
  method ResetStatistics(clusters: array<Cluster>, ghost owner: seq<int>, ghost ds: seq<real>)
    modifies clusters
    ensures TalliedAll(clusters[..], old(clusters[..]), owner, ds, 0)
  {
    for k := 0 to clusters.Length
      invariant forall j :: 0 <= j < k ==> clusters[j] == Tallied(old(clusters[j]), owner, ds, j, 0)
      invariant forall j :: k <= j < clusters.Length ==> clusters[j] == old(clusters[j])
    {
      clusters[k] := clusters[k].(radius := 0.0, nMatches := 0, distanceMax := 0.0,
                                  distanceLinearSum := 0.0, distanceSquareSum := 0.0);
    }
  }

  /** One example is tallied in its nearest cluster. */
  method TallyOne(p: Params, clusters: array<Cluster>, xs: seq<Point>, i: nat,
                  ghost cs: seq<Cluster>, ghost owner: seq<int>, ghost ds: seq<real>)
    returns (minDist: real, nearest: int)
    requires |cs| > 0 && ClustersDim(cs, p.dim) && AllDim(xs, p.dim) && i < |xs|
    requires owner == Owners(cs, xs, p.dim) && ds == Distances(cs, owner, xs, p.root, p.dim)
    requires TalliedAll(clusters[..], cs, owner, ds, i)
    modifies clusters
    ensures TalliedAll(clusters[..], cs, owner, ds, i + 1)
    ensures minDist == ds[i] && nearest == owner[i]
  {
    var now := clusters[..];
    minDist, nearest := NearestOfAll(p.dim, now, xs[i], p.root);
    SameNearest(cs, now, xs[i], nearest, owner[i]);
    TallyStep(now, cs, owner, ds, i);
    clusters[nearest] := Noted(now[nearest], minDist);
    assert clusters[..] == now[nearest := clusters[nearest]];
  }

  /** The loop that finds each example's cluster and tallies its distance. */
  method TallyAll(p: Params, clusters: array<Cluster>, xs: seq<Point>)
    returns (distances: array<real>, matches: array<int>)
    requires clusters.Length > 0 && ClustersDim(clusters[..], p.dim) && AllDim(xs, p.dim)
    modifies clusters
    ensures fresh(distances) && fresh(matches)
    ensures matches[..] == Owners(old(clusters[..]), xs, p.dim)
    ensures distances[..] == Distances(old(clusters[..]), Owners(old(clusters[..]), xs, p.dim), xs, p.root, p.dim)
    ensures TalliedAll(clusters[..], old(clusters[..]), matches[..], distances[..], |xs|)
  {
    hide Dist2;
    hide IsNearest;
    hide Tallied;
    ghost var cs := clusters[..];
    ghost var owner := Owners(cs, xs, p.dim);
    ghost var ds := Distances(cs, owner, xs, p.root, p.dim);
    ResetStatistics(clusters, owner, ds);
    distances := new real[|xs|];
    matches := new int[|xs|];
    for i := 0 to |xs|
      invariant TalliedAll(clusters[..], cs, owner, ds, i)
      invariant forall j :: 0 <= j < i ==> distances[j] == ds[j] && matches[j] == owner[j]
    {
      distances[i], matches[i] := TallyOne(p, clusters, xs, i, cs, owner, ds);
    }
    assert matches[..] == owner && distances[..] == ds;
  }

  /** The second pass over the distances of cluster k. */
  method SumDeviations(distances: array<real>, matches: array<int>, k: int, avg: real) returns (s: real)
    requires distances.Length == matches.Length
    ensures s == SumOf(matches[..], Deviations(distances[..], avg), k, distances.Length)
  {
    s := 0.0;
    for i := 0 to distances.Length
      invariant s == SumOf(matches[..], Deviations(distances[..], avg), k, i)
    {
      if matches[i] == k {
        s := s + Sq(distances[i] - avg);
      }
    }
  }

  /** Mean, deviation and radius of one cluster. */
  method MeasureOne(p: Params, c: Cluster, distances: array<real>, matches: array<int>, k: int, ghost before: Cluster)
    returns (r: Cluster)
    requires distances.Length == matches.Length
    requires c == Tallied(before, matches[..], distances[..], k, distances.Length)
    ensures r == Measured(p, before, matches[..], distances[..], k)
  {
    r := c;
    if c.nMatches != 0 {
      var s := SumDeviations(distances, matches, k, MeanDistance(c));
      r := WithDeviation(p, c, s);
    }
  }

  /** The loop that finishes every cluster. */
  method MeasureClusters(p: Params, clusters: array<Cluster>, distances: array<real>, matches: array<int>,
                         ghost cs: seq<Cluster>)
    requires distances.Length == matches.Length
    requires TalliedAll(clusters[..], cs, matches[..], distances[..], distances.Length)
    modifies clusters
    ensures clusters[..] == MeasureAll(p, cs, matches[..], distances[..])
  {
    hide Tallied;
    hide Measured;
    ghost var owner, ds := matches[..], distances[..];
    for k := 0 to clusters.Length
      invariant matches[..] == owner && distances[..] == ds
      invariant forall j :: 0 <= j < k ==> clusters[j] == Measured(p, cs[j], owner, ds, j)
      invariant forall j :: k <= j < clusters.Length ==> clusters[j] == Tallied(cs[j], owner, ds, j, |ds|)
    {
      clusters[k] := MeasureOne(p, clusters[k], distances, matches, k, cs[k]);
    }
  }

  /** src/base.c `clustering`. */
  method ClusterExamples(p: Params, xs: seq<Point>, initialId: nat) returns (ok: bool, result: seq<Cluster>)
    requires p.k >= 1 && AllDim(xs, p.dim)
    ensures ok <==> p.k <= |xs|
    ensures ok ==> result == ClusteringOf(p, xs, initialId)
    ensures ok ==> exists c, d :: FromRun(p, xs, initialId, result, c, d)
  {
    hide FromRun;
    hide IsNearest;
    hide Measured;
    hide StartDistance;
    result := [];
    var clusters;
    ok, clusters := KMeansInit(p, xs, initialId);
    if !ok {
      return;
    }
    var globalDistance := KMeansLoop(p, clusters, xs);
    ghost var cs := clusters[..];
    assert cs == Settled(p, xs, initialId);
    var distances, matches := TallyAll(p, clusters, xs);
    MeasureClusters(p, clusters, distances, matches, cs);
    result := clusters[..];
    ghost var c, d := SettledFromRun(p, xs, initialId, result);
  }
}
