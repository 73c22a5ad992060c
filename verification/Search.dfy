/** Nearest-cluster search: the plain scan, and the scan that abandons a cluster
    as soon as its partial distance is too large. */
module Search {
  import opened Points

  predicate Looked(cs: seq<Cluster>, skipSleep: bool, i: nat)
    requires i < |cs|
  {
    !(skipSleep && cs[i].isSleep)
  }

  /** Cluster i is the closest of the first n that the scan looks at; among
      equally close ones it is the last. */
  ghost predicate IsNearest(cs: seq<Cluster>, skipSleep: bool, x: Point, n: nat, i: int)
    requires n <= |cs| && ClustersDim(cs, |x|)
  {
    && 0 <= i < n && Looked(cs, skipSleep, i)
    && (forall j :: 0 <= j < n && Looked(cs, skipSleep, j) ==> D2(cs[i].center, x) <= D2(cs[j].center, x))
    && (forall j :: i < j < n && Looked(cs, skipSleep, j) ==> D2(cs[i].center, x) < D2(cs[j].center, x))
  }

  lemma NearestUnique(cs: seq<Cluster>, skipSleep: bool, x: Point, n: nat, i: int, j: int)
    requires n <= |cs| && ClustersDim(cs, |x|)
    requires IsNearest(cs, skipSleep, x, n, i) && IsNearest(cs, skipSleep, x, n, j)
    ensures i == j
  {
  }

  /** The cluster a search is meant to find among the first n, or -1. */
  function NearestOf(cs: seq<Cluster>, skipSleep: bool, x: Point, n: nat): (i: int)
    requires n <= |cs| && ClustersDim(cs, |x|)
    ensures -1 <= i < n
    ensures i == -1 <==> forall j :: 0 <= j < n ==> !Looked(cs, skipSleep, j)
    ensures i >= 0 ==> IsNearest(cs, skipSleep, x, n, i)
  {
    if n == 0 then -1
    else
      var i := NearestOf(cs, skipSleep, x, n - 1);
      if !Looked(cs, skipSleep, n - 1) then i
      else if i == -1 || D2(cs[n - 1].center, x) <= D2(cs[i].center, x) then n - 1
      else i
  }

  /** Where `nearestClusterVal` stands after n clusters when its unset `minDist` holds
      `garbage`: cluster 0 sets `minDist` if it is looked at, else the garbage bounds the search. */
  function FoundUpTo(cs: seq<Cluster>, skipSleep: bool, x: Point, garbage: real, n: nat): (i: int)
    requires n <= |cs| && ClustersDim(cs, |x|)
    ensures -1 <= i < n
  {
    var i := NearestOf(cs, skipSleep, x, n);
    if i >= 0 && (Looked(cs, skipSleep, 0) || D2(cs[i].center, x) <= garbage) then i else -1
  }

  function Found(cs: seq<Cluster>, skipSleep: bool, x: Point, garbage: real): (i: int)
    requires ClustersDim(cs, |x|)
    ensures -1 <= i < |cs|
  {
    FoundUpTo(cs, skipSleep, x, garbage, |cs|)
  }

  /** The running minimum after n clusters. */
  function MinUpTo(cs: seq<Cluster>, skipSleep: bool, x: Point, garbage: real, n: nat): real
    requires n <= |cs| && ClustersDim(cs, |x|)
  {
    var i := FoundUpTo(cs, skipSleep, x, garbage, n);
    if i >= 0 then D2(cs[i].center, x) else garbage
  }

  /** The inner loop of the search: it gives the whole distance, or one that is
      already too large when the distance is too large. */
  method DistanceWithin(center: Point, x: Point, dim: nat, bounded: bool, bound: real) returns (dist: real)
    requires |center| == |x| == dim
    ensures !bounded || dist <= bound ==> dist == D2(center, x)
    ensures dist <= D2(center, x)
  {
    dist := 0.0;
    for d := 0 to dim
      invariant dist == Dist2(center, x, d)
    {
      var v := center[d] - x[d];
      dist := dist + Sq(v);
      if bounded && dist > bound {
        Dist2Monotone(center, x, d + 1, dim);
        return;
      }
    }
  }

  /** The search answers exactly if there is a nearest cluster, and cluster 0 is looked at or the garbage
      does not rule that one out. */
  lemma FoundIfBelow(cs: seq<Cluster>, skipSleep: bool, x: Point, garbage: real)
    requires ClustersDim(cs, |x|)
    ensures Found(cs, skipSleep, x, garbage) >= 0 <==>
      exists j :: IsNearest(cs, skipSleep, x, |cs|, j)
             && (!skipSleep || !cs[0].isSleep || D2(cs[j].center, x) <= garbage)
  {
    hide D2;
    var i := NearestOf(cs, skipSleep, x, |cs|);
    if j :| IsNearest(cs, skipSleep, x, |cs|, j) && (!skipSleep || !cs[0].isSleep || D2(cs[j].center, x) <= garbage) {
      NearestUnique(cs, skipSleep, x, |cs|, i, j);
    }
  }

  /** src/base.c `nearestClusterVal`. */
  method NearestClusterVal(dim: nat, cs: seq<Cluster>, x: Point, skipSleep: bool, garbage: real,
                           root: real -> real)
    returns (distance: real, nearest: int)
    requires |x| == dim && ClustersDim(cs, dim)
    ensures nearest == Found(cs, skipSleep, x, garbage)
    ensures distance == root(MinUpTo(cs, skipSleep, x, garbage, |cs|))
    ensures nearest >= 0 ==>
      IsNearest(cs, skipSleep, x, |cs|, nearest) && distance == root(D2(cs[nearest].center, x))
    ensures nearest >= 0 <==> exists j :: IsNearest(cs, skipSleep, x, |cs|, j)
                                && (!skipSleep || !cs[0].isSleep || D2(cs[j].center, x) <= garbage)
    ensures nearest < 0 ==> distance == root(garbage)
  {
    var minDist := garbage;
    nearest := -1;
    for k := 0 to |cs|
      invariant nearest == FoundUpTo(cs, skipSleep, x, garbage, k)
      invariant minDist == MinUpTo(cs, skipSleep, x, garbage, k)
    {
      if skipSleep && cs[k].isSleep {
        continue;
      }
      var dist := DistanceWithin(cs[k].center, x, dim, k > 0, minDist);
      if k == 0 || dist <= minDist {
        minDist := dist;
        nearest := k;
      }
    }
    distance := root(minDist);
    FoundIfBelow(cs, skipSleep, x, garbage);
  }

  /** A search over a non-empty model with no cluster skipped: the garbage is never read. */
  method NearestOfAll(dim: nat, cs: seq<Cluster>, x: Point, root: real -> real)
    returns (distance: real, nearest: int)
    requires |x| == dim && ClustersDim(cs, dim) && |cs| > 0
    ensures IsNearest(cs, false, x, |cs|, nearest)
    ensures distance == root(D2(cs[nearest].center, x))
  {
    var garbage: real := *;
    distance, nearest := NearestClusterVal(dim, cs, x, false, garbage, root);
    assert Looked(cs, false, 0);
  }

  /** The result of the plain scan: the least distance, at its last occurrence. */
  ghost predicate PlainAnswer(cs: seq<Cluster>, x: Point, root: real -> real, distance: real, nearest: int)
    requires ClustersDim(cs, |x|)
  {
    && 0 <= nearest < |cs|
    && distance == root(D2(cs[nearest].center, x))
    && (forall j :: 0 <= j < |cs| ==> distance <= root(D2(cs[j].center, x)))
    && (forall j :: nearest < j < |cs| ==> distance < root(D2(cs[j].center, x)))
  }

  /** old-code/src/base/minas.c `nearestClusterValStd`: the plain scan, guarded on
      the answer still being NULL. It compares roots, as that code does. */
  method NearestClusterValStd(dim: nat, cs: seq<Cluster>, x: Point, root: real -> real)
    returns (distance: real, nearest: int)
    requires |x| == dim && ClustersDim(cs, dim)
    ensures |cs| == 0 ==> nearest == -1
    ensures |cs| > 0 ==> PlainAnswer(cs, x, root, distance, nearest)
  {
    nearest := -1;
    distance := 0.0;
    for k := 0 to |cs|
      invariant nearest == -1 <==> k == 0
      invariant -1 <= nearest < k
      invariant nearest >= 0 ==> distance == root(D2(cs[nearest].center, x))
      invariant forall j :: 0 <= j < k ==> distance <= root(D2(cs[j].center, x))
      invariant nearest >= 0 ==> forall j :: nearest < j < k ==> distance < root(D2(cs[j].center, x))
    {
      var dist := root(D2(cs[k].center, x));
      if nearest == -1 || dist <= distance {
        distance := dist;
        nearest := k;
      }
    }
  }

  lemma ExactRootStrict(root: real -> real, a: real, b: real)
    requires IsExactRoot(root) && 0.0 <= a < b
    ensures root(a) < root(b)
  {
    assert root(a) * root(a) == a && root(b) * root(b) == b;
  }

  /** The early-abandoning scan refines the plain one: same cluster, same distance,
      for every model, dimension and point, whatever `minDist` held. */
  lemma FastRefinesPlain(cs: seq<Cluster>, x: Point, garbage: real, root: real -> real, distance: real, nearest: int)
    requires ClustersDim(cs, |x|) && IsExactRoot(root) && |cs| > 0
    ensures PlainAnswer(cs, x, root, distance, nearest)
       <==> nearest == Found(cs, false, x, garbage) && distance == root(MinUpTo(cs, false, x, garbage, |cs|))
  {
    var f := Found(cs, false, x, garbage);
    assert Looked(cs, false, 0);
    assert IsNearest(cs, false, x, |cs|, f);
    forall j | f < j < |cs| ensures root(D2(cs[f].center, x)) < root(D2(cs[j].center, x)) {
      assert Looked(cs, false, j);
      ExactRootStrict(root, D2(cs[f].center, x), D2(cs[j].center, x));
    }
    assert PlainAnswer(cs, x, root, root(D2(cs[f].center, x)), f) by {
      forall j | 0 <= j < |cs| ensures root(D2(cs[f].center, x)) <= root(D2(cs[j].center, x)) {
        assert Looked(cs, false, j);
      }
    }
  }

  /** With sleeping clusters skipped, the answer is the nearest awake cluster (or NULL when none
      is awake) for every value the unset `minDist` may hold, exactly when cluster 0 is looked at
      or nothing is. */
  lemma SearchReliable(cs: seq<Cluster>, skipSleep: bool, x: Point)
    requires ClustersDim(cs, |x|)
    ensures (forall garbage: real :: Found(cs, skipSleep, x, garbage) == NearestOf(cs, skipSleep, x, |cs|))
       <==> |cs| == 0 || Looked(cs, skipSleep, 0) || forall j :: 0 <= j < |cs| ==> !Looked(cs, skipSleep, j)
  {
    var i := NearestOf(cs, skipSleep, x, |cs|);
    if |cs| > 0 && !Looked(cs, skipSleep, 0) && i >= 0 {
      assert Found(cs, skipSleep, x, -1.0) == -1;
    }
  }

  /** Whatever the garbage, the search never answers with a wrong cluster: it gives the
      nearest one looked at, or NULL; and it gives NULL wrongly only when cluster 0 sleeps. */
  lemma SearchSound(cs: seq<Cluster>, skipSleep: bool, x: Point, garbage: real)
    requires ClustersDim(cs, |x|)
    ensures var f := Found(cs, skipSleep, x, garbage);
      && (f >= 0 ==> IsNearest(cs, skipSleep, x, |cs|, f))
      && (!skipSleep && |cs| > 0 ==> f >= 0)
  {
    if !skipSleep && |cs| > 0 {
      assert Looked(cs, skipSleep, 0);
    }
  }
}
