/** k-means over an array of cluster records (src/base.c `kMeansInit`, `kMeans`). */
module KMeans {
  import opened Points
  import opened Search
  import opened Tallies

  function Zeros(dim: nat): (z: Point)
    ensures |z| == dim && forall d :: 0 <= d < dim ==> z[d] == 0.0
  {
    seq(dim, d => 0.0)
  }

  function Add(a: Point, b: Point): (s: Point)
    requires |a| == |b|
    ensures |s| == |a| && forall d :: 0 <= d < |a| ==> s[d] == a[d] + b[d]
  {
    seq(|a|, d requires 0 <= d < |a| => a[d] + b[d])
  }

  function Mean(sum: Point, n: nat): (m: Point)
    requires n > 0
    ensures |m| == |sum| && forall d :: 0 <= d < |sum| ==> m[d] == sum[d] / n as real
  {
    seq(|sum|, d requires 0 <= d < |sum| => sum[d] / n as real)
  }

  function Seed(id: nat, x: Point): Cluster {
    Cluster(id, 0, 0, 0, 0, 0, false, x, x, 0.0, 0.0, 0.0, 0.0, 0.0, 0.0)
  }

  /** The k seeds: the first k examples, each already in its cluster's linear sum. */
  function InitClusters(p: Params, xs: seq<Point>, initialId: nat): (cs: seq<Cluster>)
    requires p.k <= |xs|
    ensures |cs| == p.k
    ensures forall i :: 0 <= i < p.k ==> cs[i] == Seed(initialId + i, xs[i])
  {
    seq(p.k, i requires 0 <= i < p.k => Seed(initialId + i, xs[i]))
  }

  /** src/base.c `kMeansInit`; the program stops when there are fewer than k examples. */
  method KMeansInit(p: Params, xs: seq<Point>, initialId: nat) returns (ok: bool, clusters: array<Cluster>)
    ensures ok <==> p.k <= |xs|
    ensures ok ==> fresh(clusters) && clusters[..] == InitClusters(p, xs, initialId)
    ensures ok ==> clusters.Length == p.k && forall i :: 0 <= i < p.k ==>
      clusters[i] == Cluster(initialId + i, 0, 0, 0, 0, 0, false, xs[i], xs[i], 0.0, 0.0, 0.0, 0.0, 0.0, 0.0)
  {
    ok := p.k <= |xs|;
    clusters := new Cluster[if ok then p.k else 0](i => Seed(0, []));
    if ok {
      for i := 0 to p.k
        invariant forall j :: 0 <= j < i ==> clusters[j] == Seed(initialId + j, xs[j])
      {
        clusters[i] := Seed(initialId + i, xs[i]);
      }
    }
  }

  /** The nearest cluster of every example. */
  function Owners(cs: seq<Cluster>, xs: seq<Point>, dim: nat): (owner: seq<int>)
    requires |cs| > 0 && ClustersDim(cs, dim) && AllDim(xs, dim)
    ensures |owner| == |xs|
    ensures forall i :: 0 <= i < |xs| ==> IsNearest(cs, false, xs[i], |cs|, owner[i])
  {
    assert Looked(cs, false, 0);
    seq(|xs|, i requires 0 <= i < |xs| => NearestOf(cs, false, xs[i], |cs|))
  }

  ghost predicate OwnersIn(owner: seq<int>, xs: seq<Point>, k: nat) {
    |owner| == |xs| && forall i :: 0 <= i < |owner| ==> 0 <= owner[i] < k
  }

  /** `init` plus the first n examples that cluster k owns. */
  function SumFrom(init: Point, owner: seq<int>, xs: seq<Point>, k: int, n: nat): (s: Point)
    requires n <= |owner| && n <= |xs| && AllDim(xs, |init|)
    ensures |s| == |init|
  {
    if n == 0 then init
    else
      var s := SumFrom(init, owner, xs, k, n - 1);
      if owner[n - 1] == k then Add(s, xs[n - 1]) else s
  }

  /** One cluster after a pass: its centre moves to its running sum over its count. */
  function Recentred(c: Cluster, owner: seq<int>, xs: seq<Point>, k: int): Cluster
    requires |owner| == |xs| && AllDim(xs, |c.linearSum|)
  {
    var n := c.nMatches + CountOf(owner, k, |xs|);
    c.(center := if n > 0 then Mean(SumFrom(c.linearSum, owner, xs, k, |xs|), n) else c.center,
       linearSum := Zeros(|c.linearSum|), nMatches := 0)
  }

  ghost predicate WellFormed(cs: seq<Cluster>, dim: nat) {
    forall k :: 0 <= k < |cs| ==> |cs[k].center| == dim && |cs[k].linearSum| == dim
  }

  /** Sums and counts are at zero. */
  ghost predicate Clean(cs: seq<Cluster>, dim: nat) {
    forall k :: 0 <= k < |cs| ==> |cs[k].center| == dim && cs[k].linearSum == Zeros(dim) && cs[k].nMatches == 0
  }

  /** All clusters after one pass. */
  function Pass(cs: seq<Cluster>, xs: seq<Point>, dim: nat): (r: seq<Cluster>)
    requires |cs| > 0 && WellFormed(cs, dim) && AllDim(xs, dim)
    ensures |r| == |cs| && Clean(r, dim) && WellFormed(r, dim)
    ensures forall k :: 0 <= k < |cs| ==> r[k] == Recentred(cs[k], Owners(cs, xs, dim), xs, k)
  {
    var owner := Owners(cs, xs, dim);
    seq(|cs|, k requires 0 <= k < |cs| => Recentred(cs[k], owner, xs, k))
  }

  /** The examples that cluster k is nearest to. */
  ghost function OwnedBy(cs: seq<Cluster>, xs: seq<Point>, dim: nat, k: nat): (s: set<nat>)
    requires ClustersDim(cs, dim) && AllDim(xs, dim)
  {
    set i: nat | i < |xs| && IsNearest(cs, false, xs[i], |cs|, k)
  }

  /** Coordinate e of the examples that cluster k is nearest to, and zero for the others. */
  ghost predicate OwnCoordinates(cs: seq<Cluster>, xs: seq<Point>, dim: nat, k: nat, e: nat, ws: seq<real>)
    requires ClustersDim(cs, dim) && AllDim(xs, dim)
  {
    && e < dim && |ws| == |xs|
    && forall i :: 0 <= i < |xs| ==> ws[i] == if i in OwnedBy(cs, xs, dim, k) then xs[i][e] else 0.0
  }

  lemma OwnersOwn(cs: seq<Cluster>, xs: seq<Point>, dim: nat, k: nat)
    requires |cs| > 0 && ClustersDim(cs, dim) && AllDim(xs, dim)
    ensures forall i :: 0 <= i < |xs| ==> (i in OwnedBy(cs, xs, dim, k) <==> Owners(cs, xs, dim)[i] == k)
    ensures |OwnedBy(cs, xs, dim, k)| == CountOf(Owners(cs, xs, dim), k, |xs|)
  {
    hide D2;
    var owner := Owners(cs, xs, dim);
    forall i | 0 <= i < |xs| && IsNearest(cs, false, xs[i], |cs|, k) ensures owner[i] == k {
      NearestUnique(cs, false, xs[i], |cs|, owner[i], k);
    }
    CountIsSize(owner, k, |xs|);
    assert OwnedBy(cs, xs, dim, k) == set i | 0 <= i < |xs| && owner[i] == k;
  }

  lemma {:induction false} SumFromAt(init: Point, owner: seq<int>, xs: seq<Point>, k: int, n: nat, e: nat,
                                     ws: seq<real>)
    requires n <= |owner| && n <= |xs| && n <= |ws| && AllDim(xs, |init|) && e < |init|
    requires forall i :: 0 <= i < n ==> ws[i] == if owner[i] == k then xs[i][e] else 0.0
    ensures SumFrom(init, owner, xs, k, n)[e] == init[e] + Total(ws[..n])
  {
    if n > 0 {
      SumFromAt(init, owner, xs, k, n - 1, e, ws);
      TotalUpTo(ws, n);
    }
  }

  lemma QuotientTimes(s: real, n: real)
    requires n > 0.0
    ensures s / n * n == s
  {
  }

  lemma RecentredAt(c: Cluster, owner: seq<int>, xs: seq<Point>, k: int, e: nat, ws: seq<real>)
    requires |owner| == |xs| == |ws| && AllDim(xs, |c.linearSum|) && e < |c.linearSum|
    requires forall i :: 0 <= i < |xs| ==> ws[i] == if owner[i] == k then xs[i][e] else 0.0
    ensures var r, n := Recentred(c, owner, xs, k), CountOf(owner, k, |xs|) + c.nMatches;
      && r == c.(center := r.center, linearSum := Zeros(|c.linearSum|), nMatches := 0)
      && if n == 0 then r.center == c.center
         else |r.center| == |c.linearSum| && r.center[e] * n as real == c.linearSum[e] + Total(ws)
  {
    SumFromAt(c.linearSum, owner, xs, k, |xs|, e, ws);
    TotalWhole(ws);
    var n := CountOf(owner, k, |xs|) + c.nMatches;
    if n > 0 {
      QuotientTimes(SumFrom(c.linearSum, owner, xs, k, |xs|)[e], n as real);
    }
  }

  /** What a pass does to one cluster, by coordinates: with n the examples it is nearest to and those
      counted before, n times its new centre is what was summed before and the sum of these examples;
      a cluster without any stays where it is. */
  lemma PassMeans(cs: seq<Cluster>, xs: seq<Point>, dim: nat, k: nat, e: nat, ws: seq<real>)
    requires |cs| > 0 && WellFormed(cs, dim) && AllDim(xs, dim) && k < |cs| && OwnCoordinates(cs, xs, dim, k, e, ws)
    ensures var r, n := Pass(cs, xs, dim)[k], |OwnedBy(cs, xs, dim, k)| + cs[k].nMatches;
      && r == cs[k].(center := r.center, linearSum := Zeros(dim), nMatches := 0)
      && if n == 0 then r.center == cs[k].center
         else |r.center| == dim && r.center[e] * n as real == cs[k].linearSum[e] + Total(ws)
  {
    hide D2;
    hide IsNearest;
    hide OwnedBy;
    hide Recentred;
    hide SumFrom;
    hide CountOf;
    OwnersOwn(cs, xs, dim, k);
    RecentredAt(cs[k], Owners(cs, xs, dim), xs, k, e, ws);
  }

  /** The sum of distances that a pass reports. */
  function TotalDistance(cs: seq<Cluster>, owner: seq<int>, xs: seq<Point>, root: real -> real, dim: nat, n: nat): real
    requires ClustersDim(cs, dim) && AllDim(xs, dim) && OwnersIn(owner, xs, |cs|) && n <= |xs|
  {
    if n == 0 then 0.0
    else TotalDistance(cs, owner, xs, root, dim, n - 1) + root(D2(cs[owner[n - 1]].center, xs[n - 1]))
  }

  /** A cluster after the first n examples were added to their nearest clusters. */
  function Loaded(c: Cluster, owner: seq<int>, xs: seq<Point>, k: int, n: nat): Cluster
    requires n <= |owner| && n <= |xs| && AllDim(xs, |c.linearSum|)
  {
    c.(nMatches := c.nMatches + CountOf(owner, k, n), linearSum := SumFrom(c.linearSum, owner, xs, k, n))
  }

  /** The search depends on centres only. */
  lemma SameNearest(cs: seq<Cluster>, cs': seq<Cluster>, x: Point, i: int, j: int)
    requires |cs| == |cs'| > 0 && ClustersDim(cs, |x|) && ClustersDim(cs', |x|)
    requires forall k :: 0 <= k < |cs| ==> cs[k].center == cs'[k].center
    requires IsNearest(cs', false, x, |cs|, i) && IsNearest(cs, false, x, |cs|, j)
    ensures i == j
  {
    assert forall k :: 0 <= k < |cs| ==> Looked(cs, false, k) && Looked(cs', false, k);
    NearestUnique(cs, false, x, |cs|, i, j);
  }

  ghost predicate LoadedAll(now: seq<Cluster>, cs: seq<Cluster>, owner: seq<int>, xs: seq<Point>, dim: nat, n: nat)
    requires WellFormed(cs, dim) && AllDim(xs, dim) && n <= |owner| && n <= |xs|
  {
    |now| == |cs| && forall k :: 0 <= k < |cs| ==> now[k] == Loaded(cs[k], owner, xs, k, n)
  }

  lemma LoadNone(cs: seq<Cluster>, owner: seq<int>, xs: seq<Point>, dim: nat)
    requires WellFormed(cs, dim) && AllDim(xs, dim)
    ensures LoadedAll(cs, cs, owner, xs, dim, 0)
  {
  }

  lemma LoadOne(now: seq<Cluster>, cs: seq<Cluster>, owner: seq<int>, xs: seq<Point>, dim: nat, i: nat)
    requires WellFormed(cs, dim) && AllDim(xs, dim) && i < |xs| == |owner| && 0 <= owner[i] < |cs|
    requires LoadedAll(now, cs, owner, xs, dim, i)
    ensures |now[owner[i]].linearSum| == dim
    ensures LoadedAll(now[owner[i] := now[owner[i]].(nMatches := now[owner[i]].nMatches + 1,
                                                     linearSum := Add(now[owner[i]].linearSum, xs[i]))],
                      cs, owner, xs, dim, i + 1)
  {
    forall k | 0 <= k < |cs| && k != owner[i] ensures now[k] == Loaded(cs[k], owner, xs, k, i + 1) {}
  }

  /** One example is added to its nearest cluster. */
  method AssignOne(dim: nat, root: real -> real, clusters: array<Cluster>, xs: seq<Point>, i: nat,
                   ghost cs: seq<Cluster>, ghost owner: seq<int>) returns (minDist: real)
    requires |cs| > 0 && WellFormed(cs, dim) && AllDim(xs, dim) && i < |xs|
    requires owner == Owners(cs, xs, dim) && LoadedAll(clusters[..], cs, owner, xs, dim, i)
    modifies clusters
    ensures LoadedAll(clusters[..], cs, owner, xs, dim, i + 1)
    ensures minDist == root(D2(cs[owner[i]].center, xs[i]))
  {
    var now := clusters[..];
    var nearest;
    minDist, nearest := NearestOfAll(dim, now, xs[i], root);
    SameNearest(cs, now, xs[i], nearest, owner[i]);
    LoadOne(now, cs, owner, xs, dim, i);
    clusters[nearest] := now[nearest].(nMatches := now[nearest].nMatches + 1,
                                       linearSum := Add(now[nearest].linearSum, xs[i]));
    assert clusters[..] == now[nearest := clusters[nearest]];
  }

  /** The first loop of a pass. */
  method AssignAll(dim: nat, root: real -> real, clusters: array<Cluster>, xs: seq<Point>)
    returns (globalDistance: real)
    requires clusters.Length > 0 && WellFormed(clusters[..], dim) && AllDim(xs, dim)
    modifies clusters
    ensures globalDistance == TotalDistance(old(clusters[..]), Owners(old(clusters[..]), xs, dim), xs, root, dim, |xs|)
    ensures LoadedAll(clusters[..], old(clusters[..]), Owners(old(clusters[..]), xs, dim), xs, dim, |xs|)
  {
    hide D2;
    hide IsNearest;
    hide LoadedAll;
    ghost var cs := clusters[..];
    ghost var owner := Owners(cs, xs, dim);
    LoadNone(cs, owner, xs, dim);
    globalDistance := 0.0;
    for i := 0 to |xs|
      invariant globalDistance == TotalDistance(cs, owner, xs, root, dim, i)
      invariant LoadedAll(clusters[..], cs, owner, xs, dim, i)
    {
      var minDist := AssignOne(dim, root, clusters, xs, i, cs, owner);
      globalDistance := globalDistance + minDist;
    }
  }

  /** The second loop of a pass: centres move, sums and counts return to zero. */
  method MoveCenters(dim: nat, clusters: array<Cluster>)
    requires WellFormed(clusters[..], dim)
    modifies clusters
    ensures forall k :: 0 <= k < clusters.Length ==> var c := old(clusters[k]);
      clusters[k] == c.(center := if c.nMatches > 0 then Mean(c.linearSum, c.nMatches) else c.center,
                        linearSum := Zeros(dim), nMatches := 0)
  {
    for k := 0 to clusters.Length
      invariant forall j :: k <= j < clusters.Length ==> clusters[j] == old(clusters[j])
      invariant forall j :: 0 <= j < k ==> var c := old(clusters[j]);
        clusters[j] == c.(center := if c.nMatches > 0 then Mean(c.linearSum, c.nMatches) else c.center,
                          linearSum := Zeros(dim), nMatches := 0)
    {
      var c := clusters[k];
      assert |old(clusters[..])[k].linearSum| == dim;
      if c.nMatches > 0 {
        c := c.(center := Mean(c.linearSum, c.nMatches));
      }
      clusters[k] := c.(linearSum := Zeros(dim), nMatches := 0);
    }
  }

  function Abs(x: real): real { if x < 0.0 then -x else x }

  /** The do-while loop: passes until the reported distance settles, at most 100. */
  function Iterate(p: Params, cs: seq<Cluster>, xs: seq<Point>, prev: real, iteration: nat): (r: (seq<Cluster>, real))
    requires |cs| > 0 && WellFormed(cs, p.dim) && AllDim(xs, p.dim) && iteration < 100
    ensures |r.0| == |cs| && Clean(r.0, p.dim) && WellFormed(r.0, p.dim)
    decreases 100 - iteration
  {
    var distance := TotalDistance(cs, Owners(cs, xs, p.dim), xs, p.root, p.dim, |xs|);
    var cs' := Pass(cs, xs, p.dim);
    if Abs(distance - prev) > p.precision && iteration + 1 < 100
    then Iterate(p, cs', xs, distance, iteration + 1)
    else (cs', distance)
  }

  ghost predicate NearestDistances(p: Params, cs: seq<Cluster>, xs: seq<Point>, ds: seq<real>)
    requires ClustersDim(cs, p.dim) && AllDim(xs, p.dim) && |ds| == |xs|
  {
    forall i, c :: 0 <= i < |xs| && IsNearest(cs, false, xs[i], |cs|, c) ==> ds[i] == p.root(D2(cs[c].center, xs[i]))
  }

  /** d is the sum of the distances of all examples to their nearest clusters. */
  ghost predicate Reports(p: Params, cs: seq<Cluster>, xs: seq<Point>, d: real)
    requires ClustersDim(cs, p.dim) && AllDim(xs, p.dim)
  {
    exists ds: seq<real> :: |ds| == |xs| && d == Total(ds) && NearestDistances(p, cs, xs, ds)
  }

  lemma {:induction false} TotalDistanceIs(p: Params, cs: seq<Cluster>, owner: seq<int>, xs: seq<Point>,
                                           ds: seq<real>, n: nat)
    requires ClustersDim(cs, p.dim) && AllDim(xs, p.dim) && OwnersIn(owner, xs, |cs|) && n <= |xs| == |ds|
    requires forall i :: 0 <= i < |xs| ==> ds[i] == p.root(D2(cs[owner[i]].center, xs[i]))
    ensures TotalDistance(cs, owner, xs, p.root, p.dim, n) == Total(ds[..n])
  {
    if n > 0 {
      TotalDistanceIs(p, cs, owner, xs, ds, n - 1);
      TotalUpTo(ds, n);
    }
  }

  lemma PassReports(p: Params, cs: seq<Cluster>, xs: seq<Point>)
    requires |cs| > 0 && ClustersDim(cs, p.dim) && AllDim(xs, p.dim)
    ensures Reports(p, cs, xs, TotalDistance(cs, Owners(cs, xs, p.dim), xs, p.root, p.dim, |xs|))
  {
    hide D2;
    var owner := Owners(cs, xs, p.dim);
    var ds := seq(|xs|, i requires 0 <= i < |xs| => p.root(D2(cs[owner[i]].center, xs[i])));
    TotalDistanceIs(p, cs, owner, xs, ds, |xs|);
    TotalWhole(ds);
    forall i, c | 0 <= i < |xs| && IsNearest(cs, false, xs[i], |cs|, c)
      ensures ds[i] == p.root(D2(cs[c].center, xs[i]))
    {
      NearestUnique(cs, false, xs[i], |cs|, c, owner[i]);
    }
  }

  /** Passes one after the other from c[0], and the distances they report. */
  ghost predicate Passes(p: Params, xs: seq<Point>, c: seq<seq<Cluster>>, d: seq<real>) {
    && AllDim(xs, p.dim) && |c| == |d| + 1
    && (forall j :: 0 <= j < |c| ==> |c[j]| > 0 && WellFormed(c[j], p.dim))
    && (forall j :: 0 <= j < |d| ==> c[j + 1] == Pass(c[j], xs, p.dim) && Reports(p, c[j], xs, d[j]))
  }

  /** The distance that pass j reports is not settled: it changed by more than the precision. */
  ghost predicate Unsettled(p: Params, start: real, d: seq<real>, j: nat)
    requires j < |d|
  {
    var e := if j == 0 then start else d[j - 1];
    d[j] - e > p.precision || e - d[j] > p.precision
  }

  /** A run of the do-while loop: at least one pass, at most 100, and the last one is the first whose
      distance settled, unless it is the hundredth. */
  ghost predicate Ran(p: Params, xs: seq<Point>, start: real, c: seq<seq<Cluster>>, d: seq<real>) {
    && Passes(p, xs, c, d) && 1 <= |d| <= 100
    && (forall j :: 0 <= j < |d| - 1 ==> Unsettled(p, start, d, j))
    && (|d| < 100 ==> !Unsettled(p, start, d, |d| - 1))
  }

  /** A run so far, that is to go on from cs. */
  ghost predicate Running(p: Params, xs: seq<Point>, start: real, c: seq<seq<Cluster>>, d: seq<real>,
                          cs: seq<Cluster>, prev: real)
  {
    && Passes(p, xs, c, d) && c[|d|] == cs && prev == (if |d| == 0 then start else d[|d| - 1])
    && forall j :: 0 <= j < |d| ==> Unsettled(p, start, d, j)
  }

  lemma PassesMore(p: Params, xs: seq<Point>, c: seq<seq<Cluster>>, d: seq<real>, distance: real)
    requires Passes(p, xs, c, d)
    requires Reports(p, c[|d|], xs, distance)
    ensures Passes(p, xs, c + [Pass(c[|d|], xs, p.dim)], d + [distance])
  {
    hide Reports;
    hide Pass;
    var c', d' := c + [Pass(c[|d|], xs, p.dim)], d + [distance];
    assert forall j :: 0 <= j < |c| ==> c'[j] == c[j];
    forall j | 0 <= j < |d'| ensures c'[j + 1] == Pass(c'[j], xs, p.dim) && Reports(p, c'[j], xs, d'[j]) {
      if j < |d| {
        assert d'[j] == d[j];
      }
    }
  }

  lemma RunSize(p: Params, xs: seq<Point>, start: real, c: seq<seq<Cluster>>, d: seq<real>, cs: seq<Cluster>,
                prev: real)
    requires Running(p, xs, start, c, d, cs, prev)
    ensures |c| == |d| + 1
  {
  }

  lemma StepRun(p: Params, xs: seq<Point>, start: real, c: seq<seq<Cluster>>, d: seq<real>, cs: seq<Cluster>,
                prev: real, distance: real)
    requires |cs| > 0 && WellFormed(cs, p.dim) && AllDim(xs, p.dim)
    requires Running(p, xs, start, c, d, cs, prev) && |d| < 100 && Reports(p, cs, xs, distance)
    ensures var c', d' := c + [Pass(cs, xs, p.dim)], d + [distance];
      if (distance - prev > p.precision || prev - distance > p.precision) && |d'| < 100
      then Running(p, xs, start, c', d', Pass(cs, xs, p.dim), distance)
      else Ran(p, xs, start, c', d')
  {
    hide Reports;
    hide Passes;
    hide Pass;
    RunSize(p, xs, start, c, d, cs, prev);
    PassesMore(p, xs, c, d, distance);
    var d' := d + [distance];
    assert forall j :: 0 <= j < |d| ==> Unsettled(p, start, d, j) ==> Unsettled(p, start, d', j);
  }

  /** What the loop comes to from cs on, as a run. */
  lemma {:induction false} IterateRuns(p: Params, xs: seq<Point>, start: real, c0: seq<seq<Cluster>>, d0: seq<real>,
                                       cs: seq<Cluster>, prev: real)
    returns (c: seq<seq<Cluster>>, d: seq<real>)
    requires |cs| > 0 && WellFormed(cs, p.dim) && AllDim(xs, p.dim)
    requires Running(p, xs, start, c0, d0, cs, prev) && |d0| < 100
    ensures Ran(p, xs, start, c, d) && |c| >= |c0| >= 1 && c[0] == c0[0]
    ensures Iterate(p, cs, xs, prev, |d0|) == (c[|d|], d[|d| - 1])
    decreases 100 - |d0|
  {
    hide Reports;
    hide Running;
    hide Ran;
    hide Pass;
    hide Clean;
    hide Owners;
    hide TotalDistance;
    hide D2;
    var distance := TotalDistance(cs, Owners(cs, xs, p.dim), xs, p.root, p.dim, |xs|);
    PassReports(p, cs, xs);
    StepRun(p, xs, start, c0, d0, cs, prev, distance);
    c, d := c0 + [Pass(cs, xs, p.dim)], d0 + [distance];
    RunSize(p, xs, start, c0, d0, cs, prev);
    if Abs(distance - prev) > p.precision && |d| < 100 {
      c, d := IterateRuns(p, xs, start, c, d, Pass(cs, xs, p.dim), distance);
    }
  }

  /** The starting value of the reported distance, an unsigned product in the source. */
  function StartDistance(p: Params, n: nat): real {
    ((p.dim * p.k * n * 2) % 0x1_0000_0000) as real
  }

  /** The body of the loop. */
  method KMeansPass(dim: nat, root: real -> real, clusters: array<Cluster>, xs: seq<Point>)
    returns (globalDistance: real)
    requires clusters.Length > 0 && WellFormed(clusters[..], dim) && AllDim(xs, dim)
    modifies clusters
    ensures clusters[..] == Pass(old(clusters[..]), xs, dim)
    ensures globalDistance == TotalDistance(old(clusters[..]), Owners(old(clusters[..]), xs, dim), xs, root, dim, |xs|)
  {
    hide Dist2;
    hide SumFrom;
    hide CountOf;
    hide IsNearest;
    hide TotalDistance;
    ghost var cs := clusters[..];
    globalDistance := AssignAll(dim, root, clusters, xs);
    MoveCenters(dim, clusters);
    assert clusters[..] == Pass(cs, xs, dim);
  }

  /** src/base.c `kMeans`. */
  method KMeansLoop(p: Params, clusters: array<Cluster>, xs: seq<Point>) returns (globalDistance: real)
    requires clusters.Length > 0 && WellFormed(clusters[..], p.dim) && AllDim(xs, p.dim)
    modifies clusters
    ensures (clusters[..], globalDistance) == Iterate(p, old(clusters[..]), xs, StartDistance(p, |xs|), 0)
  {
    globalDistance := StartDistance(p, |xs|);
    var iteration := 0;
    var more := true;
    ghost var goal := Iterate(p, clusters[..], xs, globalDistance, 0);
    while more
      invariant 0 <= iteration <= 100 && (more ==> iteration < 100)
      invariant WellFormed(clusters[..], p.dim)
      invariant more ==> goal == Iterate(p, clusters[..], xs, globalDistance, iteration)
      invariant !more ==> goal == (clusters[..], globalDistance)
      decreases 100 - iteration, more
    {
      var prevGlobalDistance := globalDistance;
      globalDistance := KMeansPass(p.dim, p.root, clusters, xs);
      var improvement := globalDistance - prevGlobalDistance;
      iteration := iteration + 1;
      more := Abs(improvement) > p.precision && iteration < 100;
    }
  }
}
