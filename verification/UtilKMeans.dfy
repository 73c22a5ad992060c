/** The older k-means (old-code/src/util/kMeans.c): sums start at zero, the first of equally
    near clusters wins, and the search starts from the dimension as a sentinel distance. */
module UtilKMeans {
  import opened Points
  import opened Tallies
  import opened Search
  import opened KMeans
  import opened Lloyd

  ghost predicate InBox(x: Point) {
    forall d :: 0 <= d < |x| ==> 0.0 <= x[d] <= 1.0
  }

  ghost predicate PointsInBox(xs: seq<Point>) {
    forall i :: 0 <= i < |xs| ==> InBox(xs[i])
  }

  ghost predicate CentersInBox(cs: seq<Cluster>) {
    forall k :: 0 <= k < |cs| ==> InBox(cs[k].center)
  }

  /** The search over the first n clusters: index and distance, starting unset at the sentinel. */
  function Select(cs: seq<Cluster>, x: Point, root: real -> real, n: nat): (r: (int, real))
    requires n <= |cs| && ClustersDim(cs, |x|)
    ensures -1 <= r.0 < n
    ensures r.0 >= 0 ==> r.1 == root(D2(cs[r.0].center, x))
    ensures r.0 < 0 ==> r.1 == |x| as real
  {
    if n == 0 then (-1, |x| as real)
    else
      var (i, best) := Select(cs, x, root, n - 1);
      var distance := root(D2(cs[n - 1].center, x));
      if best > distance then (n - 1, distance) else (i, best)
  }

  lemma {:induction false} SelectLeast(cs: seq<Cluster>, x: Point, root: real -> real, n: nat)
    requires n <= |cs| && ClustersDim(cs, |x|)
    ensures var (i, best) := Select(cs, x, root, n);
      && (forall j :: 0 <= j < n ==> best <= root(D2(cs[j].center, x)))
      && (i < 0 <==> forall j :: 0 <= j < n ==> root(D2(cs[j].center, x)) >= |x| as real)
      && (i >= 0 ==> best < |x| as real && forall j :: 0 <= j < i ==> best < root(D2(cs[j].center, x)))
  {
    hide D2;
    if n > 0 {
      SelectLeast(cs, x, root, n - 1);
    }
  }

  lemma SquareSmall(v: real)
    requires -1.0 <= v <= 1.0
    ensures Sq(v) <= 1.0
  {
    if v >= 0.0 {
      assert v * v <= v * 1.0;
    } else {
      assert (-v) * (-v) <= (-v) * 1.0;
    }
  }

  lemma {:induction false} BoxDistance(a: Point, b: Point, n: nat)
    requires |a| == |b| && n <= |a| && InBox(a) && InBox(b)
    ensures Dist2(a, b, n) <= n as real
  {
    hide Sq;
    if n > 0 {
      BoxDistance(a, b, n - 1);
      SquareSmall(a[n - 1] - b[n - 1]);
    }
  }

  lemma RootBelow(root: real -> real, v: real, n: real)
    requires IsExactRoot(root) && n >= 2.0 && 0.0 <= v <= n
    ensures root(v) < n
  {
    var r := root(v);
    assert r * r == v;
    assert r >= n ==> r * r >= n * n && n * n > n;
  }

  lemma RootOfUnit(root: real -> real, v: real)
    requires IsExactRoot(root) && (v == 0.0 || v == 1.0)
    ensures root(v) >= v
  {
    var r := root(v);
    assert r * r == v;
    assert r < 1.0 ==> r * r <= r * 1.0;
  }

  /** Below two dimensions the farthest corner lies at the sentinel distance itself. */
  lemma FarCorner(cs: seq<Cluster>, x: Point, root: real -> real)
    requires IsExactRoot(root) && |x| < 2 && |cs| == 1 && |cs[0].center| == |x|
    requires forall d :: 0 <= d < |x| ==> x[d] == 0.0 && cs[0].center[d] == 1.0
    ensures Select(cs, x, root, 1).0 < 0
  {
    var distance := |x| as real;
    assert D2(cs[0].center, x) == distance by {
      if |x| == 1 {
        assert Dist2(cs[0].center, x, 1) == Dist2(cs[0].center, x, 0) + Sq(1.0);
      }
    }
    RootOfUnit(root, distance);
    assert Select(cs, x, root, 0) == (-1, distance);
  }

  lemma AlwaysSelects(cs: seq<Cluster>, x: Point, root: real -> real)
    requires IsExactRoot(root) && |x| >= 2
    requires |cs| > 0 && ClustersDim(cs, |x|) && CentersInBox(cs) && InBox(x)
    ensures Select(cs, x, root, |cs|).0 >= 0
  {
    hide Dist2;
    hide IsExactRoot;
    SelectLeast(cs, x, root, |cs|);
    BoxDistance(cs[0].center, x, |x|);
    RootBelow(root, D2(cs[0].center, x), |x| as real);
  }

  /** The sentinel is sound for every point and every model in the unit box exactly from two
      dimensions on: with fewer, a point at the far corner finds no cluster. */
  lemma SentinelSound(dim: nat, root: real -> real)
    requires IsExactRoot(root)
    ensures (forall cs: seq<Cluster>, x: Point ::
               |cs| > 0 && |x| == dim && ClustersDim(cs, |x|) && CentersInBox(cs) && InBox(x)
               ==> Select(cs, x, root, |cs|).0 >= 0)
       <==> dim >= 2
  {
    hide Select;
    hide IsExactRoot;
    if dim >= 2 {
      forall cs: seq<Cluster>, x: Point
        | |cs| > 0 && |x| == dim && ClustersDim(cs, |x|) && CentersInBox(cs) && InBox(x)
        ensures Select(cs, x, root, |cs|).0 >= 0
      {
        AlwaysSelects(cs, x, root);
      }
    } else {
      var x := Zeros(dim);
      var far: Point := seq(dim, d => 1.0);
      var cs := [Seed(0, far)];
      FarCorner(cs, x, root);
      assert CentersInBox(cs) && InBox(x);
      assert Select(cs, x, root, |cs|).0 < 0;
    }
  }

  /** The example's cluster in one pass. */
  method SelectCluster(dim: nat, cs: seq<Cluster>, x: Point, root: real -> real) returns (cluster: int, distance: real)
    requires |x| == dim && ClustersDim(cs, dim)
    ensures (cluster, distance) == Select(cs, x, root, |cs|)
  {
    cluster, distance := -1, dim as real;
    for k := 0 to |cs|
      invariant (cluster, distance) == Select(cs, x, root, k)
    {
      var d := root(D2(cs[k].center, x));
      if distance > d {
        cluster, distance := k, d;
      }
    }
  }

  /** The cluster of every example in one pass. */
  function Selected(cs: seq<Cluster>, xs: seq<Point>, dim: nat, root: real -> real): (owner: seq<int>)
    requires ClustersDim(cs, dim) && AllDim(xs, dim)
    ensures |owner| == |xs|
    ensures forall i :: 0 <= i < |xs| ==> owner[i] == Select(cs, xs[i], root, |cs|).0
  {
    seq(|xs|, i requires 0 <= i < |xs| => Select(cs, xs[i], root, |cs|).0)
  }

  /** All clusters after one pass over an assignment. */
  function PassOver(cs: seq<Cluster>, owner: seq<int>, xs: seq<Point>, dim: nat): (r: seq<Cluster>)
    requires WellFormed(cs, dim) && AllDim(xs, dim) && |owner| == |xs|
    ensures |r| == |cs| && Clean(r, dim) && WellFormed(r, dim)
    ensures forall k :: 0 <= k < |cs| ==> r[k] == Recentred(cs[k], owner, xs, k)
  {
    seq(|cs|, k requires 0 <= k < |cs| => Recentred(cs[k], owner, xs, k))
  }

  lemma {:induction false} SumInBox(owner: seq<int>, xs: seq<Point>, dim: nat, k: int, n: nat, d: nat)
    requires n <= |owner| && n <= |xs| && AllDim(xs, dim) && PointsInBox(xs) && d < dim
    ensures 0.0 <= SumFrom(Zeros(dim), owner, xs, k, n)[d] <= CountOf(owner, k, n) as real
  {
    if n > 0 {
      SumInBox(owner, xs, dim, k, n - 1, d);
      assert InBox(xs[n - 1]);
    }
  }

  lemma FractionInUnit(a: real, n: real)
    requires n > 0.0 && 0.0 <= a <= n
    ensures 0.0 <= a / n <= 1.0
  {
  }

  lemma CenterStaysInBox(c: Cluster, owner: seq<int>, xs: seq<Point>, dim: nat, k: int)
    requires |owner| == |xs| && AllDim(xs, dim) && PointsInBox(xs)
    requires |c.center| == dim && c.linearSum == Zeros(dim) && c.nMatches == 0 && InBox(c.center)
    ensures InBox(Recentred(c, owner, xs, k).center)
  {
    hide PointsInBox;
    var n := CountOf(owner, k, |xs|);
    if n > 0 {
      var s := SumFrom(Zeros(dim), owner, xs, k, |xs|);
      forall d | 0 <= d < dim ensures 0.0 <= Mean(s, n)[d] <= 1.0 {
        SumInBox(owner, xs, dim, k, |xs|, d);
        FractionInUnit(s[d], n as real);
      }
    }
  }

  lemma SelectedIsNearest(cs: seq<Cluster>, x: Point, root: real -> real, j: nat)
    requires ClustersDim(cs, |x|) && IsExactRoot(root) && j < |cs| && Select(cs, x, root, |cs|).0 >= 0
    ensures D2(cs[Select(cs, x, root, |cs|).0].center, x) <= D2(cs[j].center, x)
  {
    hide Dist2;
    hide IsExactRoot;
    SelectLeast(cs, x, root, |cs|);
    var a, b := D2(cs[Select(cs, x, root, |cs|).0].center, x), D2(cs[j].center, x);
    if b < a {
      ExactRootStrict(root, b, a);
    }
  }

  /** No assignment is cheaper than the selected one. */
  lemma {:induction false} SelectedIsCheapest(cs: seq<Cluster>, owner: seq<int>, xs: seq<Point>, dim: nat,
                                              root: real -> real, n: nat)
    requires ClustersDim(cs, dim) && AllDim(xs, dim) && OwnersIn(owner, xs, |cs|) && n <= |xs| && IsExactRoot(root)
    requires OwnersIn(Selected(cs, xs, dim, root), xs, |cs|)
    ensures Cost(cs, Selected(cs, xs, dim, root), xs, dim, n) <= Cost(cs, owner, xs, dim, n)
  {
    hide D2;
    hide Select;
    hide IsExactRoot;
    if n > 0 {
      SelectedIsCheapest(cs, owner, xs, dim, root, n - 1);
      SelectedIsNearest(cs, xs[n - 1], root, owner[n - 1]);
    }
  }

  /** What every pass keeps: sums at zero, centres in the unit box. */
  ghost predicate Ready(cs: seq<Cluster>, dim: nat) {
    |cs| > 0 && Clean(cs, dim) && CentersInBox(cs)
  }

  lemma PassDescends(cs: seq<Cluster>, xs: seq<Point>, dim: nat, root: real -> real)
    requires IsExactRoot(root) && |cs| > 0 && Clean(cs, dim) && AllDim(xs, dim)
    requires OwnersIn(Selected(cs, xs, dim, root), xs, |cs|)
    ensures Potential(PassOver(cs, Selected(cs, xs, dim, root), xs, dim), xs, dim) <= Potential(cs, xs, dim)
  {
    hide D2;
    hide IsNearest;
    hide IsExactRoot;
    hide Cost;
    var owner := Selected(cs, xs, dim, root);
    var r := PassOver(cs, owner, xs, dim);
    MeansCheaper(cs, r, owner, xs, dim);
    NearestIsCheapest(r, owner, xs, dim, |xs|);
    SelectedIsCheapest(cs, Owners(cs, xs, dim), xs, dim, root, |xs|);
  }

  /** One pass in the unit box: every example gets a cluster, the centres stay in the box with
      sums at zero, and the total squared distance does not rise, from the first pass on. */
  lemma UtilPass(cs: seq<Cluster>, xs: seq<Point>, dim: nat, root: real -> real)
    requires IsExactRoot(root) && dim >= 2 && Ready(cs, dim) && AllDim(xs, dim) && PointsInBox(xs)
    ensures OwnersIn(Selected(cs, xs, dim, root), xs, |cs|)
    ensures Ready(PassOver(cs, Selected(cs, xs, dim, root), xs, dim), dim)
    ensures Potential(PassOver(cs, Selected(cs, xs, dim, root), xs, dim), xs, dim) <= Potential(cs, xs, dim)
  {
    hide D2;
    hide IsNearest;
    hide IsExactRoot;
    hide InBox;
    var owner := Selected(cs, xs, dim, root);
    forall i | 0 <= i < |xs| ensures 0 <= owner[i] < |cs| {
      AlwaysSelects(cs, xs[i], root);
    }
    var r := PassOver(cs, owner, xs, dim);
    forall k | 0 <= k < |cs| ensures InBox(r[k].center) {
      CenterStaysInBox(cs[k], owner, xs, dim, k);
    }
    PassDescends(cs, xs, dim, root);
  }

  /** The clusters as the first pass meets them. */
  function Prepared(cs: seq<Cluster>, dim: nat): (r: seq<Cluster>)
    ensures |r| == |cs|
    ensures forall k :: 0 <= k < |cs| ==>
      r[k] == cs[k].(nMatches := 0, distanceMax := 0.0, radius := 0.0, linearSum := Zeros(dim))
  {
    seq(|cs|, k requires 0 <= k < |cs| =>
      cs[k].(nMatches := 0, distanceMax := 0.0, radius := 0.0, linearSum := Zeros(dim)))
  }

  /** Sums and counts to zero before the first pass. */
  method Prepare(dim: nat, clusters: array<Cluster>)
    modifies clusters
    ensures clusters[..] == Prepared(old(clusters[..]), dim)
  {
    for k := 0 to clusters.Length
      invariant forall j :: k <= j < clusters.Length ==> clusters[j] == old(clusters[j])
      invariant forall j :: 0 <= j < k ==> clusters[j] == Prepared(old(clusters[..]), dim)[j]
    {
      clusters[k] := clusters[k].(nMatches := 0, distanceMax := 0.0, radius := 0.0, linearSum := Zeros(dim));
    }
  }

  /** The sum of distances that a pass reports, over the first n examples. */
  function SelectedTotal(cs: seq<Cluster>, xs: seq<Point>, dim: nat, root: real -> real, n: nat): real
    requires ClustersDim(cs, dim) && AllDim(xs, dim) && n <= |xs|
  {
    if n == 0 then 0.0 else SelectedTotal(cs, xs, dim, root, n - 1) + Select(cs, xs[n - 1], root, |cs|).1
  }

  /** The clusters after the loop: up to 100 passes, as long as the reported distance changes. */
  function UtilIterate(cs: seq<Cluster>, xs: seq<Point>, dim: nat, root: real -> real, prev: real, iteration: nat)
    : (r: seq<Cluster>)
    requires WellFormed(cs, dim) && AllDim(xs, dim) && iteration < 100
    ensures |r| == |cs| && WellFormed(r, dim)
    decreases 100 - iteration
  {
    var total := SelectedTotal(cs, xs, dim, root, |xs|);
    var cs' := PassOver(cs, Selected(cs, xs, dim, root), xs, dim);
    if total != prev && iteration + 1 < 100 then UtilIterate(cs', xs, dim, root, total, iteration + 1) else cs'
  }

  /** In the unit box the whole loop never raises the potential, and keeps the centres inside. */
  lemma {:induction false} UtilLoopDescends(cs: seq<Cluster>, xs: seq<Point>, dim: nat, root: real -> real,
                                            prev: real, iteration: nat)
    requires IsExactRoot(root) && dim >= 2 && Ready(cs, dim) && AllDim(xs, dim) && PointsInBox(xs) && iteration < 100
    ensures Ready(UtilIterate(cs, xs, dim, root, prev, iteration), dim)
    ensures Potential(UtilIterate(cs, xs, dim, root, prev, iteration), xs, dim) <= Potential(cs, xs, dim)
    decreases 100 - iteration
  {
    hide Potential;
    hide IsExactRoot;
    hide Selected;
    UtilPass(cs, xs, dim, root);
    var total := SelectedTotal(cs, xs, dim, root, |xs|);
    if total != prev && iteration + 1 < 100 {
      UtilLoopDescends(PassOver(cs, Selected(cs, xs, dim, root), xs, dim), xs, dim, root, total, iteration + 1);
    }
  }

  /** The cluster of every example after one pass: one that no cluster is near enough for keeps the
      cluster of the pass before, or stays unset. */
  function Kept(cs: seq<Cluster>, xs: seq<Point>, dim: nat, root: real -> real, prev: seq<int>): (owner: seq<int>)
    requires ClustersDim(cs, dim) && AllDim(xs, dim) && |prev| == |xs|
    ensures |owner| == |xs|
    ensures forall i :: 0 <= i < |xs| ==>
      var j := Select(cs, xs[i], root, |cs|).0; owner[i] == if j >= 0 then j else prev[i]
  {
    seq(|xs|, i requires 0 <= i < |xs| => var j := Select(cs, xs[i], root, |cs|).0; if j >= 0 then j else prev[i])
  }

  predicate SomeUnset(owner: seq<int>) {
    exists i :: 0 <= i < |owner| && owner[i] < 0
  }

  ghost predicate Below(owner: seq<int>, k: nat) {
    forall i :: 0 <= i < |owner| ==> owner[i] < k
  }

  /** The whole loop on any data: whether no unset cluster is ever used, and the clusters. */
  function Iterated(cs: seq<Cluster>, prev: seq<int>, xs: seq<Point>, dim: nat, root: real -> real, total0: real,
                    iteration: nat)
    : (r: (bool, seq<Cluster>))
    requires WellFormed(cs, dim) && AllDim(xs, dim) && |prev| == |xs| && iteration < 100
    decreases 100 - iteration
  {
    var owner := Kept(cs, xs, dim, root, prev);
    if SomeUnset(owner) then (false, cs)
    else
      var total := SelectedTotal(cs, xs, dim, root, |xs|);
      var cs' := PassOver(cs, owner, xs, dim);
      if total != total0 && iteration + 1 < 100 then Iterated(cs', owner, xs, dim, root, total, iteration + 1)
      else (true, cs')
  }

  lemma {:induction false} SetStaysSet(cs: seq<Cluster>, prev: seq<int>, xs: seq<Point>, dim: nat,
                                       root: real -> real, total0: real, iteration: nat)
    requires WellFormed(cs, dim) && AllDim(xs, dim) && |prev| == |xs| && iteration < 100 && !SomeUnset(prev)
    ensures Iterated(cs, prev, xs, dim, root, total0, iteration).0
    decreases 100 - iteration
  {
    hide Select;
    hide SelectedTotal;
    hide PassOver;
    var owner := Kept(cs, xs, dim, root, prev);
    assert !SomeUnset(owner);
    var total := SelectedTotal(cs, xs, dim, root, |xs|);
    if total != total0 && iteration + 1 < 100 {
      SetStaysSet(PassOver(cs, owner, xs, dim), owner, xs, dim, root, total, iteration + 1);
    }
  }

  function Unset(n: nat): (owner: seq<int>)
    ensures |owner| == n && forall i :: 0 <= i < n ==> owner[i] == -1
  {
    seq(n, _ => -1)
  }

  /** Some cluster is nearer than the sentinel. */
  ghost predicate Reached(cs: seq<Cluster>, x: Point, root: real -> real)
    requires ClustersDim(cs, |x|)
  {
    exists j :: 0 <= j < |cs| && root(D2(cs[j].center, x)) < |x| as real
  }

  ghost predicate AllReached(cs: seq<Cluster>, xs: seq<Point>, dim: nat, root: real -> real)
    requires ClustersDim(cs, dim) && AllDim(xs, dim)
  {
    forall i :: 0 <= i < |xs| ==> Reached(cs, xs[i], root)
  }

  lemma SelectIfReached(cs: seq<Cluster>, x: Point, root: real -> real)
    requires ClustersDim(cs, |x|)
    ensures Select(cs, x, root, |cs|).0 >= 0 <==> Reached(cs, x, root)
  {
    hide D2;
    SelectLeast(cs, x, root, |cs|);
  }

  lemma ReachedSame(cs: seq<Cluster>, ds: seq<Cluster>, x: Point, root: real -> real)
    requires |cs| == |ds| && ClustersDim(cs, |x|) && ClustersDim(ds, |x|) && Reached(cs, x, root)
    requires forall k :: 0 <= k < |cs| ==> cs[k].center == ds[k].center
    ensures Reached(ds, x, root)
  {
    hide D2;
    var j :| 0 <= j < |cs| && root(D2(cs[j].center, x)) < |x| as real;
    assert root(D2(ds[j].center, x)) < |x| as real;
  }

  /** The loop uses an unset cluster exactly if in the first pass some example has no cluster nearer
      than the sentinel: later it keeps the one it had. */
  lemma UnsetOnlyFirst(cs: seq<Cluster>, xs: seq<Point>, dim: nat, root: real -> real, total0: real)
    requires WellFormed(cs, dim) && AllDim(xs, dim)
    ensures Iterated(cs, Unset(|xs|), xs, dim, root, total0, 0).0 <==> AllReached(cs, xs, dim, root)
  {
    hide D2;
    hide Select;
    hide SelectedTotal;
    hide PassOver;
    hide Reached;
    var owner := Kept(cs, xs, dim, root, Unset(|xs|));
    forall i | 0 <= i < |xs| ensures owner[i] >= 0 <==> Reached(cs, xs[i], root) {
      SelectIfReached(cs, xs[i], root);
    }
    var total := SelectedTotal(cs, xs, dim, root, |xs|);
    if !SomeUnset(owner) && total != total0 {
      SetStaysSet(PassOver(cs, owner, xs, dim), owner, xs, dim, root, total, 1);
    }
  }

  lemma ReachedOrUnset(cs: seq<Cluster>, xs: seq<Point>, dim: nat, root: real -> real)
    requires ClustersDim(cs, dim) && AllDim(xs, dim)
    ensures Iterated(Prepared(cs, dim), Unset(|xs|), xs, dim, root, dim as real, 0).0 <==> AllReached(cs, xs, dim, root)
  {
    hide Iterated;
    hide Reached;
    var start := Prepared(cs, dim);
    UnsetOnlyFirst(start, xs, dim, root, dim as real);
    forall i | 0 <= i < |xs| ensures Reached(start, xs[i], root) <==> Reached(cs, xs[i], root) {
      if Reached(start, xs[i], root) {
        ReachedSame(start, cs, xs[i], root);
      } else if Reached(cs, xs[i], root) {
        ReachedSame(cs, start, xs[i], root);
      }
    }
  }

  /** The cluster of an example after a pass: the nearest one, the first of equally near ones, if it is
      nearer than the sentinel; else the one it had. */
  ghost predicate PickedFor(cs: seq<Cluster>, x: Point, root: real -> real, prev: int, now: int)
    requires ClustersDim(cs, |x|)
  {
    if !Reached(cs, x, root) then now == prev
    else
      && 0 <= now < |cs|
      && (forall k :: 0 <= k < |cs| ==> root(D2(cs[now].center, x)) <= root(D2(cs[k].center, x)))
      && (forall k :: 0 <= k < now ==> root(D2(cs[now].center, x)) < root(D2(cs[k].center, x)))
  }

  /** The least of the sentinel and the distances to all clusters. */
  ghost predicate LeastDistance(cs: seq<Cluster>, x: Point, root: real -> real, v: real)
    requires ClustersDim(cs, |x|)
  {
    && v <= |x| as real && (forall k :: 0 <= k < |cs| ==> v <= root(D2(cs[k].center, x)))
    && (v == |x| as real || exists k :: 0 <= k < |cs| && v == root(D2(cs[k].center, x)))
  }

  /** One pass from clusters cs and owners o to cs' and o', reporting the distance d. */
  ghost predicate IsPass(xs: seq<Point>, dim: nat, root: real -> real, cs: seq<Cluster>, o: seq<int>,
                         cs': seq<Cluster>, o': seq<int>, d: real)
  {
    && WellFormed(cs, dim) && AllDim(xs, dim) && |o| == |o'| == |xs|
    && (forall i :: 0 <= i < |xs| ==> PickedFor(cs, xs[i], root, o[i], o'[i]) && o'[i] >= 0)
    && cs' == PassOver(cs, o', xs, dim)
    && exists ds: seq<real> :: |ds| == |xs| && d == Total(ds)
         && forall i :: 0 <= i < |xs| ==> LeastDistance(cs, xs[i], root, ds[i])
  }

  lemma SelectPicks(cs: seq<Cluster>, x: Point, root: real -> real, prev: int)
    requires ClustersDim(cs, |x|)
    ensures var i := Select(cs, x, root, |cs|).0; PickedFor(cs, x, root, prev, if i >= 0 then i else prev)
  {
    hide D2;
    SelectLeast(cs, x, root, |cs|);
    SelectIfReached(cs, x, root);
    hide Select;
    hide Reached;
  }

  lemma SelectIsLeast(cs: seq<Cluster>, x: Point, root: real -> real)
    requires ClustersDim(cs, |x|)
    ensures LeastDistance(cs, x, root, Select(cs, x, root, |cs|).1)
  {
    hide D2;
    SelectLeast(cs, x, root, |cs|);
    hide Select;
  }

  lemma {:induction false} SelectedTotalIs(cs: seq<Cluster>, xs: seq<Point>, dim: nat, root: real -> real,
                                           ds: seq<real>, n: nat)
    requires ClustersDim(cs, dim) && AllDim(xs, dim) && n <= |xs| == |ds|
    requires forall i :: 0 <= i < |xs| ==> ds[i] == Select(cs, xs[i], root, |cs|).1
    ensures SelectedTotal(cs, xs, dim, root, n) == Total(ds[..n])
  {
    hide Select;
    if n > 0 {
      SelectedTotalIs(cs, xs, dim, root, ds, n - 1);
      TotalUpTo(ds, n);
    }
  }

  lemma KeptIsPass(cs: seq<Cluster>, prev: seq<int>, xs: seq<Point>, dim: nat, root: real -> real)
    requires WellFormed(cs, dim) && AllDim(xs, dim) && |prev| == |xs| && !SomeUnset(Kept(cs, xs, dim, root, prev))
    ensures var owner := Kept(cs, xs, dim, root, prev);
      IsPass(xs, dim, root, cs, prev, PassOver(cs, owner, xs, dim), owner, SelectedTotal(cs, xs, dim, root, |xs|))
  {
    hide D2;
    hide PickedFor;
    hide LeastDistance;
    hide Select;
    hide PassOver;
    var owner := Kept(cs, xs, dim, root, prev);
    var ds := seq(|xs|, i requires 0 <= i < |xs| => Select(cs, xs[i], root, |cs|).1);
    SelectedTotalIs(cs, xs, dim, root, ds, |xs|);
    TotalWhole(ds);
    forall i | 0 <= i < |xs|
      ensures PickedFor(cs, xs[i], root, prev[i], owner[i]) && LeastDistance(cs, xs[i], root, ds[i]) && owner[i] >= 0
    {
      SelectPicks(cs, xs[i], root, prev[i]);
      SelectIsLeast(cs, xs[i], root);
    }
  }

  /** Passes one after the other, from clusters c[0] and owners o[0]. */
  ghost predicate UtilPasses(xs: seq<Point>, dim: nat, root: real -> real, c: seq<seq<Cluster>>, o: seq<seq<int>>,
                             d: seq<real>)
  {
    && |c| == |o| == |d| + 1
    && forall j :: 0 <= j < |d| ==> IsPass(xs, dim, root, c[j], o[j], c[j + 1], o[j + 1], d[j])
  }

  /** The distance that pass j reports differs from the one before; the first one is the sentinel. */
  ghost predicate Improved(dim: nat, d: seq<real>, j: nat)
    requires j < |d|
  {
    d[j] != if j == 0 then dim as real else d[j - 1]
  }

  /** A run of the loop: up to 100 passes, and the last is the first that does not change the distance,
      unless it is the hundredth. */
  ghost predicate UtilRan(xs: seq<Point>, dim: nat, root: real -> real, c: seq<seq<Cluster>>, o: seq<seq<int>>,
                          d: seq<real>)
  {
    && UtilPasses(xs, dim, root, c, o, d) && 1 <= |d| <= 100
    && (forall j :: 0 <= j < |d| - 1 ==> Improved(dim, d, j))
    && (|d| < 100 ==> !Improved(dim, d, |d| - 1))
  }

  /** A run so far, that is to go on from clusters cs and owners prev. */
  ghost predicate UtilRunning(xs: seq<Point>, dim: nat, root: real -> real, c: seq<seq<Cluster>>, o: seq<seq<int>>,
                              d: seq<real>, cs: seq<Cluster>, prev: seq<int>, total: real)
  {
    && UtilPasses(xs, dim, root, c, o, d) && c[|d|] == cs && o[|d|] == prev
    && total == (if |d| == 0 then dim as real else d[|d| - 1])
    && forall j :: 0 <= j < |d| ==> Improved(dim, d, j)
  }

  lemma UtilPassesMore(xs: seq<Point>, dim: nat, root: real -> real, c: seq<seq<Cluster>>, o: seq<seq<int>>,
                       d: seq<real>, cs: seq<Cluster>, owner: seq<int>, total: real)
    requires UtilPasses(xs, dim, root, c, o, d) && IsPass(xs, dim, root, c[|d|], o[|d|], cs, owner, total)
    ensures UtilPasses(xs, dim, root, c + [cs], o + [owner], d + [total])
  {
    hide IsPass;
    var c', o', d' := c + [cs], o + [owner], d + [total];
    forall j | 0 <= j < |d'| ensures IsPass(xs, dim, root, c'[j], o'[j], c'[j + 1], o'[j + 1], d'[j]) {
      if j < |d| {
        assert IsPass(xs, dim, root, c[j], o[j], c[j + 1], o[j + 1], d[j]);
      }
    }
  }

  lemma UtilStepRun(xs: seq<Point>, dim: nat, root: real -> real, c: seq<seq<Cluster>>, o: seq<seq<int>>, d: seq<real>,
                    cs: seq<Cluster>, prev: seq<int>, total0: real, cs': seq<Cluster>, owner: seq<int>, total: real)
    requires UtilRunning(xs, dim, root, c, o, d, cs, prev, total0) && |d| < 100
    requires IsPass(xs, dim, root, cs, prev, cs', owner, total)
    ensures |c| == |o| == |d| + 1
    ensures if total != total0 && |d| + 1 < 100
      then UtilRunning(xs, dim, root, c + [cs'], o + [owner], d + [total], cs', owner, total)
      else UtilRan(xs, dim, root, c + [cs'], o + [owner], d + [total])
  {
    hide IsPass;
    UtilPassesMore(xs, dim, root, c, o, d, cs', owner, total);
    var d' := d + [total];
    assert forall j :: 0 <= j < |d| ==> Improved(dim, d, j) ==> Improved(dim, d', j);
  }

  /** What the loop comes to from clusters cs on, as a run, when it uses no unset cluster. */
  lemma {:induction false} IteratedRuns(xs: seq<Point>, dim: nat, root: real -> real, c0: seq<seq<Cluster>>,
                                        o0: seq<seq<int>>, d0: seq<real>, cs: seq<Cluster>, prev: seq<int>,
                                        total0: real)
    returns (c: seq<seq<Cluster>>, o: seq<seq<int>>, d: seq<real>)
    requires WellFormed(cs, dim) && AllDim(xs, dim) && |prev| == |xs| && |d0| < 100
    requires UtilRunning(xs, dim, root, c0, o0, d0, cs, prev, total0)
    requires Iterated(cs, prev, xs, dim, root, total0, |d0|).0
    ensures UtilRan(xs, dim, root, c, o, d) && |c| == |o| == |d| + 1 && |c0| > 0 && |o0| > 0
    ensures c[0] == c0[0] && o[0] == o0[0]
    ensures Iterated(cs, prev, xs, dim, root, total0, |d0|).1 == c[|d|]
    decreases 100 - |d0|
  {
    hide D2;
    hide IsPass;
    hide UtilRunning;
    hide UtilRan;
    hide PassOver;
    hide Kept;
    hide SomeUnset;
    hide SelectedTotal;
    var owner := Kept(cs, xs, dim, root, prev);
    var total, cs' := SelectedTotal(cs, xs, dim, root, |xs|), PassOver(cs, owner, xs, dim);
    KeptIsPass(cs, prev, xs, dim, root);
    UtilStepRun(xs, dim, root, c0, o0, d0, cs, prev, total0, cs', owner, total);
    c, o, d := c0 + [cs'], o0 + [owner], d0 + [total];
    if total != total0 && |d| < 100 {
      c, o, d := IteratedRuns(xs, dim, root, c, o, d, cs', owner, total);
    }
  }

  /** In the unit box the sentinel is never in the way, whatever was kept. */
  lemma {:induction false} BoxIsPlain(cs: seq<Cluster>, prev: seq<int>, xs: seq<Point>, dim: nat, root: real -> real,
                                      total0: real, iteration: nat)
    requires IsExactRoot(root) && dim >= 2 && Ready(cs, dim) && AllDim(xs, dim) && PointsInBox(xs) && iteration < 100
    requires |prev| == |xs|
    ensures Iterated(cs, prev, xs, dim, root, total0, iteration)
        == (true, UtilIterate(cs, xs, dim, root, total0, iteration))
    decreases 100 - iteration
  {
    hide Potential;
    hide IsExactRoot;
    hide Select;
    UtilPass(cs, xs, dim, root);
    var owner := Kept(cs, xs, dim, root, prev);
    assert owner == Selected(cs, xs, dim, root);
    var total := SelectedTotal(cs, xs, dim, root, |xs|);
    if total != total0 && iteration + 1 < 100 {
      BoxIsPlain(PassOver(cs, owner, xs, dim), owner, xs, dim, root, total, iteration + 1);
    }
  }

  lemma LoadedIsPass(cs: seq<Cluster>, now: seq<Cluster>, owner: seq<int>, xs: seq<Point>, dim: nat)
    requires WellFormed(cs, dim) && AllDim(xs, dim) && |owner| == |xs| && LoadedAll(now, cs, owner, xs, dim, |xs|)
    ensures WellFormed(now, dim) && |now| == |cs|
    ensures forall k :: 0 <= k < |cs| ==> var c := now[k];
      Recentred(cs[k], owner, xs, k)
        == c.(center := if c.nMatches > 0 then Mean(c.linearSum, c.nMatches) else c.center,
              linearSum := Zeros(dim), nMatches := 0)
  {
  }

  lemma {:induction false} SelectSame(cs: seq<Cluster>, now: seq<Cluster>, x: Point, root: real -> real, n: nat)
    requires n <= |cs| == |now| && ClustersDim(cs, |x|) && ClustersDim(now, |x|)
    requires forall k :: 0 <= k < |cs| ==> cs[k].center == now[k].center
    ensures Select(cs, x, root, n) == Select(now, x, root, n)
  {
    if n > 0 {
      SelectSame(cs, now, x, root, n - 1);
    }
  }

  /** One example's search and update. `ok` says that its cluster is set. */
  method UtilAssignOne(dim: nat, root: real -> real, clusters: array<Cluster>, owners: array<int>, xs: seq<Point>,
                       i: nat,
                       ghost cs: seq<Cluster>, ghost owner: seq<int>) returns (ok: bool, distance: real)
    requires WellFormed(cs, dim) && AllDim(xs, dim) && i < |xs| == owners.Length && Below(owners[..], |cs|)
    requires |owner| == |xs| && LoadedAll(clusters[..], cs, owner, xs, dim, i)
    requires var j := Select(cs, xs[i], root, |cs|).0; owner[i] == if j >= 0 then j else owners[i]
    modifies clusters, owners
    ensures owners[..] == old(owners[..])[i := owner[i]]
    ensures ok <==> owner[i] >= 0
    ensures ok ==> LoadedAll(clusters[..], cs, owner, xs, dim, i + 1)
    ensures distance == Select(cs, xs[i], root, |cs|).1
  {
    hide D2;
    var now := clusters[..];
    var cluster;
    cluster, distance := SelectCluster(dim, now, xs[i], root);
    SelectSame(cs, now, xs[i], root, |cs|);
    hide Select;
    if cluster >= 0 {
      owners[i] := cluster;
    }
    cluster := owners[i];
    ok := cluster >= 0;
    if ok {
      LoadOne(now, cs, owner, xs, dim, i);
      clusters[cluster] := now[cluster].(nMatches := now[cluster].nMatches + 1,
                                         linearSum := Add(now[cluster].linearSum, xs[i]));
      assert clusters[..] == now[cluster := clusters[cluster]];
    }
  }

  lemma TotalGrows(cs: seq<Cluster>, xs: seq<Point>, dim: nat, root: real -> real, n: nat)
    requires ClustersDim(cs, dim) && AllDim(xs, dim) && n < |xs|
    ensures SelectedTotal(cs, xs, dim, root, n + 1)
        == SelectedTotal(cs, xs, dim, root, n) + Select(cs, xs[n], root, |cs|).1
  {
  }

  lemma TotalOfNone(cs: seq<Cluster>, xs: seq<Point>, dim: nat, root: real -> real)
    requires ClustersDim(cs, dim) && AllDim(xs, dim)
    ensures SelectedTotal(cs, xs, dim, root, 0) == 0.0
  {
  }

  /** The assignments of a pass; they fail where an unset cluster would be used. */
  method UtilAssignAll(dim: nat, root: real -> real, clusters: array<Cluster>, owners: array<int>, xs: seq<Point>)
    returns (ok: bool, globalInnerDistance: real)
    requires WellFormed(clusters[..], dim) && AllDim(xs, dim) && owners.Length == |xs|
    requires Below(owners[..], clusters.Length)
    modifies clusters, owners
    ensures var cs := old(clusters[..]);
      var owner := Kept(cs, xs, dim, root, old(owners[..]));
      && (ok <==> !SomeUnset(owner))
      && (ok ==>
            && owners[..] == owner && LoadedAll(clusters[..], cs, owner, xs, dim, |xs|)
            && globalInnerDistance == SelectedTotal(cs, xs, dim, root, |xs|))
  {
    hide D2;
    hide LoadedAll;
    hide Select;
    hide SelectedTotal;
    ghost var cs, before := clusters[..], owners[..];
    ghost var owner := Kept(cs, xs, dim, root, before);
    LoadNone(cs, owner, xs, dim);
    TotalOfNone(cs, xs, dim, root);
    globalInnerDistance := 0.0;
    ok := true;
    for i := 0 to |xs|
      invariant ok && globalInnerDistance == SelectedTotal(cs, xs, dim, root, i)
      invariant LoadedAll(clusters[..], cs, owner, xs, dim, i)
      invariant owners[..] == owner[..i] + before[i..] && forall j :: 0 <= j < i ==> owner[j] >= 0
    {
      assert owners[i] == before[i] && Below(owners[..], |cs|);
      var distance;
      ok, distance := UtilAssignOne(dim, root, clusters, owners, xs, i, cs, owner);
      if !ok {
        return;
      }
      TotalGrows(cs, xs, dim, root, i);
      globalInnerDistance := globalInnerDistance + distance;
      assert owners[..] == owner[..i + 1] + before[i + 1..];
    }
    assert owners[..] == owner && !SomeUnset(owner);
  }

  /** The body of the loop. */
  method UtilKMeansPass(dim: nat, root: real -> real, clusters: array<Cluster>, owners: array<int>, xs: seq<Point>)
    returns (ok: bool, globalInnerDistance: real)
    requires WellFormed(clusters[..], dim) && AllDim(xs, dim) && owners.Length == |xs|
    requires Below(owners[..], clusters.Length)
    modifies clusters, owners
    ensures var owner := Kept(old(clusters[..]), xs, dim, root, old(owners[..]));
      && (ok <==> !SomeUnset(owner))
      && (ok ==>
            && owners[..] == owner && clusters[..] == PassOver(old(clusters[..]), owner, xs, dim)
            && globalInnerDistance == SelectedTotal(old(clusters[..]), xs, dim, root, |xs|))
  {
    hide D2;
    hide LoadedAll;
    hide Kept;
    hide Recentred;
    hide SomeUnset;
    ghost var cs := clusters[..];
    ghost var owner := Kept(cs, xs, dim, root, owners[..]);
    ok, globalInnerDistance := UtilAssignAll(dim, root, clusters, owners, xs);
    if !ok {
      return;
    }
    LoadedIsPass(cs, clusters[..], owner, xs, dim);
    MoveCenters(dim, clusters);
    assert clusters[..] == PassOver(cs, owner, xs, dim);
  }

  /** What the loop comes to in the unit box. */
  lemma BoxDescends(cs: seq<Cluster>, xs: seq<Point>, dim: nat, root: real -> real)
    requires IsExactRoot(root) && dim >= 2 && |cs| > 0 && ClustersDim(cs, dim) && CentersInBox(cs)
    requires AllDim(xs, dim) && PointsInBox(xs)
    ensures var r := Iterated(Prepared(cs, dim), Unset(|xs|), xs, dim, root, dim as real, 0);
      r.0 && Ready(r.1, dim) && |r.1| > 0 && Potential(r.1, xs, dim) <= Potential(cs, xs, dim)
  {
    hide IsExactRoot;
    hide InBox;
    hide Potential;
    hide Selected;
    var start := Prepared(cs, dim);
    SamePotential(cs, start, xs, dim);
    UtilLoopDescends(start, xs, dim, root, dim as real, 0);
    BoxIsPlain(start, Unset(|xs|), xs, dim, root, dim as real, 0);
  }

  lemma KeptBelow(cs: seq<Cluster>, xs: seq<Point>, dim: nat, root: real -> real, prev: seq<int>)
    requires ClustersDim(cs, dim) && AllDim(xs, dim) && |prev| == |xs| && Below(prev, |cs|)
    ensures Below(Kept(cs, xs, dim, root, prev), |cs|)
  {
    hide Select;
  }

  lemma UtilStartRunning(xs: seq<Point>, dim: nat, root: real -> real, cs: seq<Cluster>, prev: seq<int>)
    ensures UtilRunning(xs, dim, root, [cs], [prev], [], cs, prev, dim as real)
  {
  }

  /** The loop's result comes from a run that starts with cleared sums and counts and no owners. */
  ghost predicate FromUtilRun(xs: seq<Point>, dim: nat, root: real -> real, cs: seq<Cluster>, result: seq<Cluster>,
                              c: seq<seq<Cluster>>, o: seq<seq<int>>, d: seq<real>)
  {
    && UtilRan(xs, dim, root, c, o, d) && |c| == |o| == |d| + 1
    && |c[0]| == |cs|
    && (forall k :: 0 <= k < |cs| ==>
          c[0][k] == cs[k].(nMatches := 0, distanceMax := 0.0, radius := 0.0, linearSum := c[0][k].linearSum)
          && |c[0][k].linearSum| == dim && forall e :: 0 <= e < dim ==> c[0][k].linearSum[e] == 0.0)
    && |o[0]| == |xs| && (forall i :: 0 <= i < |xs| ==> o[0][i] == -1)
    && result == c[|d|]
  }

  lemma UtilResultFromRun(xs: seq<Point>, dim: nat, root: real -> real, cs: seq<Cluster>)
    returns (c: seq<seq<Cluster>>, o: seq<seq<int>>, d: seq<real>)
    requires ClustersDim(cs, dim) && AllDim(xs, dim)
    requires Iterated(Prepared(cs, dim), Unset(|xs|), xs, dim, root, dim as real, 0).0
    ensures var r := Iterated(Prepared(cs, dim), Unset(|xs|), xs, dim, root, dim as real, 0);
      FromUtilRun(xs, dim, root, cs, r.1, c, o, d)
  {
    hide UtilRan;
    hide Iterated;
    var start := Prepared(cs, dim);
    UtilStartRunning(xs, dim, root, start, Unset(|xs|));
    c, o, d := IteratedRuns(xs, dim, root, [start], [Unset(|xs|)], [], start, Unset(|xs|), dim as real);
  }

  /** old-code/src/util/kMeans.c `kMeans`, on any data; it fails where it would use an unset cluster,
      and in the unit box, with two dimensions or more, it does not, and descends. The quotient test
      of the source holds exactly when the two distances differ, also when the earlier one is zero. */
  method UtilKMeansLoop(dim: nat, root: real -> real, clusters: array<Cluster>, xs: seq<Point>) returns (ok: bool)
    requires ClustersDim(clusters[..], dim) && AllDim(xs, dim)
    modifies clusters
    ensures var r := Iterated(Prepared(old(clusters[..]), dim), Unset(|xs|), xs, dim, root, dim as real, 0);
      ok == r.0 && (ok ==> clusters[..] == r.1)
    ensures ok <==> AllReached(old(clusters[..]), xs, dim, root)
    ensures ok ==> exists c, o, d :: FromUtilRun(xs, dim, root, old(clusters[..]), clusters[..], c, o, d)
    ensures (&& IsExactRoot(root) && dim >= 2 && clusters.Length > 0
             && CentersInBox(old(clusters[..])) && PointsInBox(xs)) ==>
      ok && Ready(clusters[..], dim) && Potential(clusters[..], xs, dim) <= Potential(old(clusters[..]), xs, dim)
  {
    hide IsExactRoot;
    hide InBox;
    hide Potential;
    hide Kept;
    hide PassOver;
    hide SelectedTotal;
    hide FromUtilRun;
    hide AllReached;
    hide D2;
    ghost var start := Prepared(clusters[..], dim);
    ReachedOrUnset(clusters[..], xs, dim, root);
    if Iterated(start, Unset(|xs|), xs, dim, root, dim as real, 0).0 {
      ghost var c, o, d := UtilResultFromRun(xs, dim, root, clusters[..]);
    }
    if IsExactRoot(root) && dim >= 2 && clusters.Length > 0 && CentersInBox(clusters[..]) && PointsInBox(xs) {
      BoxDescends(clusters[..], xs, dim, root);
    }
    Prepare(dim, clusters);
    var owners := new int[|xs|](i => -1);
    assert owners[..] == Unset(|xs|);
    var globalInnerDistance := dim as real;
    var improving, iteration := true, 0;
    ok := true;
    ghost var goal := Iterated(start, Unset(|xs|), xs, dim, root, globalInnerDistance, 0);
    while iteration < 100 && improving
      invariant 0 <= iteration <= 100 && (iteration == 0 ==> improving) && ok && WellFormed(clusters[..], dim)
      invariant Below(owners[..], clusters.Length)
      invariant iteration < 100 && improving ==>
        goal == Iterated(clusters[..], owners[..], xs, dim, root, globalInnerDistance, iteration)
      invariant iteration == 100 || !improving ==> goal == (true, clusters[..])
      decreases 100 - iteration
    {
      var prevGlobalInnerDistance := globalInnerDistance;
      KeptBelow(clusters[..], xs, dim, root, owners[..]);
      ok, globalInnerDistance := UtilKMeansPass(dim, root, clusters, owners, xs);
      if !ok {
        return;
      }
      improving := globalInnerDistance != prevGlobalInnerDistance;
      iteration := iteration + 1;
    }
  }
}
