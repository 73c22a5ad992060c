/** Points of the feature space, squared distances, and the cluster record. */
module Points {

  type Point = seq<real>

  function Sq(v: real): (r: real)
    ensures r >= 0.0
  {
    v * v
  }

  /** Sum of the first n squared coordinate differences. */
  function Dist2(a: Point, b: Point, n: nat): (r: real)
    requires n <= |a| && n <= |b|
    ensures r >= 0.0
  {
    if n == 0 then 0.0 else Dist2(a, b, n - 1) + Sq(a[n - 1] - b[n - 1])
  }

  /** The whole squared distance between two points of one dimension. */
  function D2(a: Point, b: Point): (r: real)
    requires |a| == |b|
    ensures r >= 0.0
  {
    Dist2(a, b, |b|)
  }

  /** A partial sum never exceeds a longer one, so a scan may stop early. */
  lemma {:induction false} Dist2Monotone(a: Point, b: Point, m: nat, n: nat)
    requires m <= n <= |a| && n <= |b|
    ensures Dist2(a, b, m) <= Dist2(a, b, n)
  {
    if m < n {
      Dist2Monotone(a, b, m, n - 1);
    }
  }

  /** What the model needs of `sqrt`: it is non-negative and keeps order.
      Exactness is asked for only where a statement speaks of a square. */
  ghost predicate IsRoot(root: real -> real) {
    forall x, y :: 0.0 <= x <= y ==> 0.0 <= root(x) <= root(y)
  }

  ghost predicate IsExactRoot(root: real -> real) {
    IsRoot(root) && forall x :: 0.0 <= x ==> root(x) * root(x) == x
  }

  /** The cluster record. `linearSum` is the running sum of assigned points. */
  datatype Cluster = Cluster(
    id: nat, tag: nat, nMatches: nat, nMisses: nat, latestMatchId: nat,
    extensionOf: nat, isSleep: bool, center: Point, linearSum: Point,
    distanceLinearSum: real, distanceSquareSum: real, distanceMax: real,
    distanceAvg: real, distanceStdDev: real, radius: real)

  ghost predicate AllDim(xs: seq<Point>, dim: nat) {
    forall i :: 0 <= i < |xs| ==> |xs[i]| == dim
  }

  ghost predicate ClustersDim(cs: seq<Cluster>, dim: nat) {
    forall i :: 0 <= i < |cs| ==> |cs[i].center| == dim
  }

  datatype Params = Params(
    k: nat, dim: nat, precision: real, radiusF: real, minExamples: nat, noveltyF: real,
    forgetThreshold: nat, noveltyTrigger: nat, unknownsMax: nat, root: real -> real)
  {
    /** The relations that `main` sets up between the parameters. */
    ghost predicate Valid() {
      && k >= 1 && minExamples >= 1
      && noveltyTrigger == minExamples * k
      && unknownsMax == noveltyTrigger * 2
      && IsRoot(root)
    }
  }
}
