/** When cluster 0 goes to sleep, and a run of the serial program in which it does: the search
    whose `minDist` is unset may then answer NULL although somebody is awake. */
module Fallback {
  import opened Points
  import opened Labels
  import opened Search
  import opened KMeans
  import opened Sums
  import opened Ledger
  import opened Sleep
  import opened Minas
  import opened Unknowns
  import opened Serial

  /** The guard of `minasHandleSleep`. */
  predicate SleepTried(p: Params, size: nat, sleepCounter: nat, currId: nat, lastForgetCheck: nat) {
    currId != 0 && Sub64(size, sleepCounter) > 2 * p.k && Sub64(currId, lastForgetCheck) >= p.forgetThreshold
  }

  /** What lies before k stays as it is. */
  lemma {:induction false} DrowseFront(p: Params, cs: seq<Cluster>, currId: nat, counter: nat, k: nat)
    requires k <= |cs|
    ensures forall i :: 0 <= i < k ==> Drowse(p, cs, currId, counter, k).0[i] == cs[i]
    decreases |cs| - k
  {
    hide Stale;
    if k < |cs| {
      if cs[k].isSleep {
        DrowseFront(p, cs, currId, counter, k + 1);
      } else {
        var cs' := if Stale(p, cs[k], currId) then cs[k := cs[k].(isSleep := true)] else cs;
        var counter' := if Stale(p, cs[k], currId) then counter + 1 else counter;
        if counter' < 2 * p.k {
          DrowseFront(p, cs', currId, counter', k + 1);
        }
      }
    }
  }

  /** Cluster 0, if awake, is put to sleep exactly when sleeping is tried at all and it is stale. */
  lemma FirstSleeps(p: Params, model: seq<Cluster>, sleepCounter: nat, currId: nat, lastForgetCheck: nat)
    requires |model| > 0 && !model[0].isSleep
    ensures Slept(p, model, sleepCounter, currId, lastForgetCheck).0[0].isSleep
       <==> SleepTried(p, |model|, sleepCounter, currId, lastForgetCheck) && Stale(p, model[0], currId)
  {
    hide Stale;
    hide Sub64;
    if SleepTried(p, |model|, sleepCounter, currId, lastForgetCheck) {
      var cs' := if Stale(p, model[0], currId) then model[0 := model[0].(isSleep := true)] else model;
      var counter' := if Stale(p, model[0], currId) then sleepCounter + 1 else sleepCounter;
      DrowseFront(p, cs', currId, counter', 1);
      assert Drowse(p, model, currId, sleepCounter, 0)
          == if counter' >= 2 * p.k then (cs', counter') else Drowse(p, cs', currId, counter', 1);
    }
  }

  /** The loop does nothing where nobody is stale. */
  lemma {:induction false} DrowseNone(p: Params, cs: seq<Cluster>, currId: nat, counter: nat, k: nat)
    requires k <= |cs| && forall i :: k <= i < |cs| ==> !Stale(p, cs[i], currId)
    ensures Drowse(p, cs, currId, counter, k) == (cs, counter)
    decreases |cs| - k
  {
    hide Stale;
    if k < |cs| {
      DrowseNone(p, cs, currId, counter, k + 1);
    }
  }

  lemma SameCenters(p: Params, model: seq<Cluster>, sleepCounter: nat, id: nat, x: Point, garbage: real)
    requires |model| > 0 && ClustersDim(model, |x|)
    ensures var (m1, c1) := Identified(p, model, sleepCounter, id, id, x, garbage);
      ClustersDim(Slept(p, m1, c1, id, 0).0, |x|)
  {
    hide MatchOf;
    hide Chosen;
    hide FallsBack;
    var (m1, c1) := Identified(p, model, sleepCounter, id, id, x, garbage);
    DrowseCounts(p, m1, id, c1, 0);
  }

  /** Model and sleep counter after an example that is no unknown. */
  function OneExample(p: Params, model: seq<Cluster>, sleepCounter: nat, id: nat, x: Point,
                      garbage: real): (r: (seq<Cluster>, nat))
    requires |model| > 0 && ClustersDim(model, |x|)
    ensures |r.0| == |model| && ClustersDim(r.0, |x|)
  {
    SameCenters(p, model, sleepCounter, id, x, garbage);
    var (m1, c1) := Identified(p, model, sleepCounter, id, id, x, garbage);
    Slept(p, m1, c1, id, 0)
  }

  /** Model and sleep counter after examples 0 to n-1, all at x. */
  function Repeated(p: Params, model: seq<Cluster>, x: Point, garbage: real, n: nat): (r: (seq<Cluster>, nat))
    requires |model| > 0 && ClustersDim(model, |x|)
    ensures |r.0| == |model| && ClustersDim(r.0, |x|)
  {
    if n == 0 then (model, 0)
    else
      var (m, c) := Repeated(p, model, x, garbage, n - 1);
      OneExample(p, m, c, n - 1, x, garbage)
  }

  /** The input clusters of the run: 2k + 1 alike, at the origin, that match what lies there. */
  function Alike(p: Params): (model: seq<Cluster>)
    ensures |model| == 2 * p.k + 1 && ClustersDim(model, p.dim)
  {
    seq(2 * p.k + 1, i requires 0 <= i < 2 * p.k + 1 =>
      Seed(i, Zeros(p.dim)).(tag := 78, radius := p.root(0.0), linearSum := Zeros(p.dim)))
  }

  /** All but the last cluster are as at the start; the last one took every example. */
  ghost predicate LastTakesAll(p: Params, model: seq<Cluster>, n: nat) {
    var start := Alike(p);
    && |model| == |start|
    && (forall i :: 0 <= i < |model| - 1 ==> model[i] == start[i])
    && var last, l := model[|model| - 1], start[|start| - 1];
       && last.center == l.center && last.radius == l.radius && last.tag == l.tag && !last.isSleep
       && (n > 0 ==> last.latestMatchId == n - 1)
  }

  lemma {:induction false} ZeroDistance(n: nat, dim: nat)
    requires n <= dim
    ensures Dist2(Zeros(dim), Zeros(dim), n) == 0.0
  {
    if n > 0 {
      ZeroDistance(n - 1, dim);
    }
  }

  lemma AlikeStarts(p: Params)
    ensures forall i :: 0 <= i < |Alike(p)| ==>
      var c := Alike(p)[i];
      !c.isSleep && c.latestMatchId == 0 && c.center == Zeros(p.dim) && c.radius == p.root(0.0) && c.tag == 78
  {
  }

  /** An example at the origin goes to the last cluster, as a match. */
  lemma LastIsChosen(p: Params, model: seq<Cluster>, n: nat, garbage: real)
    requires LastTakesAll(p, model, n) && ClustersDim(model, p.dim)
    ensures Chosen(model, Zeros(p.dim), garbage) == |model| - 1 && !FallsBack(model, Zeros(p.dim), garbage)
    ensures var m := MatchOf(p, model, n, Zeros(p.dim), |model| - 1);
      m.isMatch && m.cluster == |model| - 1 && m.tag == 78
  {
    AlikeStarts(p);
    ZeroDistance(p.dim, p.dim);
    hide Dist2;
    var x, l := Zeros(p.dim), |model| - 1;
    forall i | 0 <= i < |model|
      ensures Looked(model, true, i) && model[i].center == x && D2(model[i].center, x) == 0.0
    {}
    assert IsNearest(model, true, x, |model|, l);
    NearestUnique(model, true, x, |model|, l, NearestOf(model, true, x, |model|));
  }

  /** One more example before the threshold is passed. */
  lemma OneMoreExample(p: Params, model: seq<Cluster>, n: nat, garbage: real)
    requires p.k >= 1 && n <= p.forgetThreshold < 0xFFFF_FFFF
    requires LastTakesAll(p, model, n) && ClustersDim(model, p.dim)
    ensures var (m, c) := OneExample(p, model, 0, n, Zeros(p.dim), garbage); c == 0 && LastTakesAll(p, m, n + 1)
  {
    hide MatchOf;
    hide Chosen;
    hide FallsBack;
    LastIsChosen(p, model, n, garbage);
    AlikeStarts(p);
    var (m1, c1) := Identified(p, model, 0, n, n, Zeros(p.dim), garbage);
    assert forall i :: 0 <= i < |m1| ==> !Stale(p, m1[i], n);
    DrowseNone(p, m1, n, 0, 0);
  }

  lemma {:induction false} UpToThreshold(p: Params, garbage: real, n: nat)
    requires p.k >= 1 && n <= p.forgetThreshold + 1 && p.forgetThreshold < 0xFFFF_FFFF
    ensures var (m, c) := Repeated(p, Alike(p), Zeros(p.dim), garbage, n); c == 0 && LastTakesAll(p, m, n)
  {
    hide OneExample;
    if n > 0 {
      UpToThreshold(p, garbage, n - 1);
      OneMoreExample(p, Repeated(p, Alike(p), Zeros(p.dim), garbage, n - 1).0, n - 1, garbage);
    } else {
      AlikeStarts(p);
    }
  }

  lemma LastExample(p: Params, model: seq<Cluster>, n: nat, garbage: real)
    requires p.k >= 1 && n == p.forgetThreshold + 1 && p.forgetThreshold < 0xFFFF_FFFF
    requires LastTakesAll(p, model, n) && ClustersDim(model, p.dim)
    ensures var (m, c) := OneExample(p, model, 0, n, Zeros(p.dim), garbage);
      |m| == |model| && ClustersDim(m, p.dim) && m[0].isSleep && c == Sum(m, ASLEEP) < |m|
  {
    hide MatchOf;
    hide Chosen;
    hide FallsBack;
    LastIsChosen(p, model, n, garbage);
    AlikeStarts(p);
    var (m1, c1) := Identified(p, model, 0, n, n, Zeros(p.dim), garbage);
    FirstSleeps(p, m1, 0, n, 0);
    SumZero(m1, ASLEEP);
    DrowseLeavesOneAwake(p, m1, n, 0);
    DrowseCounts(p, m1, n, 0, 0);
  }

  /** No example of the run is unknown, so each does no more than that. */
  lemma NoneUnknown(p: Params, garbage: real, n: nat)
    requires p.k >= 1 && n <= p.forgetThreshold + 1 && p.forgetThreshold < 0xFFFF_FFFF
    ensures var m := Repeated(p, Alike(p), Zeros(p.dim), garbage, n).0;
      MatchOf(p, m, n, Zeros(p.dim), Chosen(m, Zeros(p.dim), garbage)).tag != UNKNOWN_LABEL
  {
    hide Repeated;
    hide MatchOf;
    hide Chosen;
    UpToThreshold(p, garbage, n);
    LastIsChosen(p, Repeated(p, Alike(p), Zeros(p.dim), garbage, n).0, n, garbage);
  }

  /** The model of the run is what cluster lines lead to (`Serial.StepCluster` with `currId` zero). */
  lemma AlikeIsRead(p: Params, i: nat)
    requires i < |Alike(p)|
    ensures var c := Alike(p)[i];
      c.id == i && Alike(p)[..i + 1] == Alike(p)[..i] + [c.(nMatches := 0, nMisses := 0, latestMatchId := Trunc32(0))]
  {
  }

  /** Each example of the run does to the model what the serial step does (`Serial.StepExample`), and
      leaves labels and unknowns alone. */
  lemma RunIsSerial(p: Params, garbage: real, n: nat, nextLabel: nat, check: nat, us: seq<Unknown>)
    requires p.k >= 1 && n <= p.forgetThreshold + 1 && p.forgetThreshold < 0xFFFF_FFFF
    ensures var x := Zeros(p.dim);
      var was, now := Repeated(p, Alike(p), x, garbage, n), Repeated(p, Alike(p), x, garbage, n + 1);
      ExampleDone(p, n, x, garbage, 0, was.0, was.1, nextLabel, check, us, now.0, now.1, nextLabel, check, us)
  {
    hide Identified;
    hide Slept;
    hide MatchOf;
    hide Chosen;
    NoneUnknown(p, garbage, n);
  }

  /** A run that meets it: 2k + 1 input clusters alike, then examples that all match the last of
      them. The example after the forgetting threshold puts cluster 0 to sleep, and from then on
      the search may answer NULL, while the intended one finds somebody awake. */
  lemma RunMeetsFallback(p: Params, garbage: real)
    requires p.k >= 1 && p.forgetThreshold < 0xFFFF_FFFF
    ensures var (m, c) := Repeated(p, Alike(p), Zeros(p.dim), garbage, p.forgetThreshold + 2);
      && m[0].isSleep && c == Sum(m, ASLEEP) < |m|
      && NearestOf(m, true, Zeros(p.dim), |m|) >= 0
      && (exists g: real :: FallsBack(m, Zeros(p.dim), g))
  {
    hide OneExample;
    hide FallsBack;
    var n, x := p.forgetThreshold + 1, Zeros(p.dim);
    UpToThreshold(p, garbage, n);
    var m := Repeated(p, Alike(p), x, garbage, n).0;
    LastExample(p, m, n, garbage);
    var (m2, c2) := OneExample(p, m, 0, n, x, garbage);
    SomebodyAwake(m2, c2, x);
    if !exists g: real :: FallsBack(m2, x, g) {
      NeverFallsBack(m2, x);
    }
  }
}
