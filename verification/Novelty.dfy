/** Novelty detection (src/base.c `noveltyDetection`): which clusters are accepted, how
    they are labelled, and what an accepted round does to the unknowns. */
module Novelty {
  import opened Points
  import opened Labels
  import opened Search
  import opened Tallies
  import opened KMeans
  import opened Clustering
  import opened ClusterFacts
  import opened Unknowns

  /** The model and the label counter during a round. */
  datatype Round = Round(model: seq<Cluster>, nextLabel: nat, novelties: nat, extensions: nat)

  /** The closest cluster of the model takes c as an extension when c lies close enough. */
  predicate Extends(p: Params, model: seq<Cluster>, c: Cluster, n: nat)
    requires n < |model| && |model[n].center| == |c.center|
  {
    p.root(D2(model[n].center, c.center)) <= p.noveltyF * model[n].distanceStdDev
  }

  /** One accepted cluster joins the model. */
  function AcceptOne(p: Params, r: Round, c: Cluster): (s: Round)
    requires |r.model| > 0 && ClustersDim(r.model, p.dim) && |c.center| == p.dim
    ensures |s.model| == |r.model| + 1 && s.model[..|r.model|] == r.model
    ensures ClustersDim(s.model, p.dim)
  {
    assert Looked(r.model, false, 0);
    var n := NearestOf(r.model, false, c.center, |r.model|);
    var c' := c.(id := |r.model|);
    if Extends(p, r.model, c, n)
    then r.(model := r.model + [c'.(tag := r.model[n].tag, extensionOf := r.model[n].id)],
            extensions := r.extensions + 1)
    else r.(model := r.model + [c'.(tag := r.nextLabel)], nextLabel := NextLabel(r.nextLabel),
            novelties := r.novelties + 1)
  }

  /** The round after the first n clusters of a clustering. */
  function AcceptUpTo(p: Params, r: Round, cs: seq<Cluster>, n: nat): (s: Round)
    requires n <= |cs| && |r.model| > 0 && ClustersDim(r.model, p.dim) && ClustersDim(cs, p.dim)
    ensures |s.model| >= |r.model| && s.model[..|r.model|] == r.model
    ensures ClustersDim(s.model, p.dim)
  {
    if n == 0 then r
    else
      var s := AcceptUpTo(p, r, cs, n - 1);
      if cs[n - 1].nMatches < p.minExamples then s else AcceptOne(p, s, cs[n - 1])
  }

  /** The indices of the accepted clusters, in order. */
  ghost function AcceptedIndices(p: Params, cs: seq<Cluster>, n: nat): (a: seq<nat>)
    requires n <= |cs|
    ensures forall q :: 0 <= q < |a| ==> a[q] < n && cs[a[q]].nMatches >= p.minExamples
    ensures forall q, q' :: 0 <= q < q' < |a| ==> a[q] < a[q']
    ensures forall j :: 0 <= j < n && cs[j].nMatches >= p.minExamples ==> j in a
  {
    if n == 0 then []
    else
      var a := AcceptedIndices(p, cs, n - 1);
      if cs[n - 1].nMatches < p.minExamples then a else a + [n - 1]
  }

  /** A cluster as it joins the model: only its id, label and origin change. */
  ghost predicate JoinedAs(c: Cluster, m: Cluster, index: nat) {
    m == c.(id := index, tag := m.tag, extensionOf := m.extensionOf)
  }

  lemma OneJoins(p: Params, r: Round, c: Cluster)
    requires |r.model| > 0 && ClustersDim(r.model, p.dim) && |c.center| == p.dim
    ensures var s := AcceptOne(p, r, c);
      && JoinedAs(c, s.model[|r.model|], |r.model|)
      && s.novelties + s.extensions == r.novelties + r.extensions + 1
  {
    hide Extends;
  }

  ghost predicate JoinedAll(model: seq<Cluster>, base: nat, cs: seq<Cluster>, a: seq<nat>) {
    |model| == base + |a| &&
    forall q :: 0 <= q < |a| ==> a[q] < |cs| && JoinedAs(cs[a[q]], model[base + q], base + q)
  }

  lemma JoinNone(model: seq<Cluster>, cs: seq<Cluster>)
    ensures JoinedAll(model, |model|, cs, [])
  {
  }

  lemma JoinAnother(model: seq<Cluster>, base: nat, cs: seq<Cluster>, a: seq<nat>, m: Cluster, j: nat)
    requires JoinedAll(model, base, cs, a) && j < |cs| && JoinedAs(cs[j], m, |model|)
    ensures JoinedAll(model + [m], base, cs, a + [j])
  {
    hide JoinedAs;
  }

  /** What is added to the model: exactly the accepted clusters, in order, counted by kind. */
  lemma {:induction false} AcceptedJoin(p: Params, r: Round, cs: seq<Cluster>, n: nat)
    requires n <= |cs| && |r.model| > 0 && ClustersDim(r.model, p.dim) && ClustersDim(cs, p.dim)
    ensures var s, a := AcceptUpTo(p, r, cs, n), AcceptedIndices(p, cs, n);
      && JoinedAll(s.model, |r.model|, cs, a)
      && s.novelties + s.extensions == r.novelties + r.extensions + |a|
  {
    hide AcceptOne;
    hide JoinedAs;
    hide JoinedAll;
    JoinNone(r.model, cs);
    if n > 0 {
      AcceptedJoin(p, r, cs, n - 1);
      if cs[n - 1].nMatches >= p.minExamples {
        var s := AcceptUpTo(p, r, cs, n - 1);
        var t := AcceptOne(p, s, cs[n - 1]);
        OneJoins(p, s, cs[n - 1]);
        JoinAnother(s.model, |r.model|, cs, AcceptedIndices(p, cs, n - 1), t.model[|s.model|], n - 1);
        assert t.model == s.model + [t.model[|s.model|]];
      }
    }
  }

  /** Every label that is not a letter lies below the counter. */
  ghost predicate LabelsBelow(model: seq<Cluster>, nextLabel: nat) {
    forall i :: 0 <= i < |model| && !IsAlpha(model[i].tag) ==> model[i].tag < nextLabel
  }

  /** A cluster that is not an extension got a label that was not in the model, and that is no
      letter, not the mark of unknowns and not the end-of-stream mark. */
  lemma FreshLabel(p: Params, r: Round, c: Cluster)
    requires |r.model| > 0 && ClustersDim(r.model, p.dim) && |c.center| == p.dim
    requires LabelsBelow(r.model, r.nextLabel) && !Reserved(r.nextLabel)
    ensures var s := AcceptOne(p, r, c);
      && LabelsBelow(s.model, s.nextLabel) && !Reserved(s.nextLabel) && s.nextLabel >= r.nextLabel
      && (s.novelties > r.novelties ==>
            var l := s.model[|r.model|].tag;
            !Reserved(l) && l != EOS_LABEL && forall i :: 0 <= i < |r.model| ==> r.model[i].tag != l)
      && (s.novelties == r.novelties ==> exists i :: 0 <= i < |r.model| && s.model[|r.model|].tag == r.model[i].tag)
  {
    hide Extends;
    assert Looked(r.model, false, 0);
    var s, n := AcceptOne(p, r, c), NearestOf(r.model, false, c.center, |r.model|);
    forall i | 0 <= i < |s.model| && !IsAlpha(s.model[i].tag) ensures s.model[i].tag < s.nextLabel {
      if i < |r.model| {
        assert s.model[i] == r.model[i];
      } else if Extends(p, r.model, c, n) {
        assert s.model[i].tag == r.model[n].tag;
      }
    }
  }

  /** Labels stay fresh through a whole round, whether or not the counter was reserved at its start. */
  lemma {:induction false} LabelsStayBelow(p: Params, r: Round, cs: seq<Cluster>, n: nat)
    requires n <= |cs| && |r.model| > 0 && ClustersDim(r.model, p.dim) && ClustersDim(cs, p.dim)
    requires LabelsBelow(r.model, r.nextLabel)
    ensures var s := AcceptUpTo(p, r, cs, n);
      && LabelsBelow(s.model, s.nextLabel)
      && (!Reserved(r.nextLabel) ==> !Reserved(s.nextLabel))
  {
    hide Extends;
    if n > 0 {
      LabelsStayBelow(p, r, cs, n - 1);
      var s := AcceptUpTo(p, r, cs, n - 1);
      if cs[n - 1].nMatches >= p.minExamples {
        var t := AcceptOne(p, s, cs[n - 1]);
        assert Looked(s.model, false, 0);
        forall i | 0 <= i < |t.model| && !IsAlpha(t.model[i].tag) ensures t.model[i].tag < t.nextLabel {
          if i < |s.model| {
            assert t.model[i] == s.model[i];
          }
        }
      }
    }
  }

  /** The search among all of the first n clusters depends on their centres only. */
  lemma {:induction false} SameNearestOf(model: seq<Cluster>, now: seq<Cluster>, x: Point, n: nat)
    requires n <= |model| && n <= |now| && ClustersDim(model, |x|) && ClustersDim(now, |x|)
    requires forall k :: 0 <= k < n ==> model[k].center == now[k].center
    ensures NearestOf(model, false, x, n) == NearestOf(now, false, x, n)
  {
    hide D2;
    hide IsNearest;
    if n > 0 {
      SameNearestOf(model, now, x, n - 1);
    }
  }

  /** No earlier cluster has the label of the cluster at i, and it is no letter, not the mark of
      unknowns and not the end-of-stream mark. */
  ghost predicate FreshAt(model: seq<Cluster>, i: nat)
    requires i < |model|
  {
    && !(65 <= model[i].tag <= 90) && !(97 <= model[i].tag <= 122) && model[i].tag != 45 && model[i].tag != 87
    && forall j :: 0 <= j < i ==> model[j].tag != model[i].tag
  }

  /** How a cluster that a round appended at i is labelled: close enough to the nearest of those
      before it, it extends that one and has its label; else it is a novelty with a fresh label. */
  ghost predicate Novel(p: Params, model: seq<Cluster>, i: nat)
    requires 0 < i < |model| && ClustersDim(model, p.dim)
  {
    assert Looked(model, false, 0);
    var n := NearestOf(model, false, model[i].center, i);
    if p.root(D2(model[n].center, model[i].center)) <= p.noveltyF * model[n].distanceStdDev
    then model[i].tag == model[n].tag && model[i].extensionOf == model[n].id
    else FreshAt(model, i)
  }

  ghost predicate AllNovel(p: Params, model: seq<Cluster>, from: nat)
    requires ClustersDim(model, p.dim)
  {
    from > 0 && forall i :: from <= i < |model| ==> Novel(p, model, i)
  }

  /** Two models agree on a cluster in all that labelling looks at. */
  ghost predicate SameKind(a: Cluster, b: Cluster) {
    && a.id == b.id && a.tag == b.tag && a.center == b.center
    && a.distanceStdDev == b.distanceStdDev && a.extensionOf == b.extensionOf
  }

  lemma NovelKept(p: Params, was: seq<Cluster>, now: seq<Cluster>, i: nat)
    requires 0 < i < |was| <= |now| && ClustersDim(was, p.dim) && ClustersDim(now, p.dim)
    requires forall j :: 0 <= j <= i ==> SameKind(was[j], now[j])
    requires Novel(p, was, i)
    ensures Novel(p, now, i)
  {
    hide D2;
    hide Reserved;
    assert Looked(was, false, 0);
    SameNearestOf(was, now, was[i].center, i);
  }

  /** The one cluster that is accepted: an extension or fresh. */
  lemma OneIsNovel(p: Params, r: Round, c: Cluster)
    requires |r.model| > 0 && ClustersDim(r.model, p.dim) && |c.center| == p.dim
    requires LabelsBelow(r.model, r.nextLabel) && !Reserved(r.nextLabel)
    ensures Novel(p, AcceptOne(p, r, c).model, |r.model|)
  {
    hide D2;
    var s, m := AcceptOne(p, r, c), |r.model|;
    assert Looked(r.model, false, 0);
    var n := NearestOf(r.model, false, c.center, m);
    FreshLabel(p, r, c);
    assert forall j :: 0 <= j < m ==> s.model[j] == r.model[j];
    SameNearestOf(r.model, s.model, c.center, m);
    assert Extends(p, s.model, s.model[m], n) == Extends(p, r.model, c, n);
  }

  /** Fresh labels over a whole round: every cluster it appends extends the nearest one before it,
      or is a novelty with a label that nothing before it has. */
  lemma {:induction false} RoundIsNovel(p: Params, r: Round, cs: seq<Cluster>, n: nat)
    requires n <= |cs| && |r.model| > 0 && ClustersDim(r.model, p.dim) && ClustersDim(cs, p.dim)
    requires LabelsBelow(r.model, r.nextLabel) && !Reserved(r.nextLabel)
    ensures AllNovel(p, AcceptUpTo(p, r, cs, n).model, |r.model|)
  {
    hide AcceptOne;
    hide Novel;
    hide Reserved;
    if n > 0 {
      RoundIsNovel(p, r, cs, n - 1);
      LabelsStayBelow(p, r, cs, n - 1);
      var s := AcceptUpTo(p, r, cs, n - 1);
      if cs[n - 1].nMatches >= p.minExamples {
        var t := AcceptOne(p, s, cs[n - 1]);
        OneIsNovel(p, s, cs[n - 1]);
        assert forall j :: 0 <= j < |s.model| ==> t.model[j] == s.model[j];
        forall i | |r.model| <= i < |t.model| ensures Novel(p, t.model, i) {
          if i < |s.model| {
            NovelKept(p, s.model, t.model, i);
          }
        }
      }
    }
  }

  /** The counter is never the end-of-stream mark, so a round makes no cluster so labelled. */
  lemma {:induction false} RoundMakesNoMark(p: Params, r: Round, cs: seq<Cluster>, n: nat)
    requires n <= |cs| && |r.model| > 0 && ClustersDim(r.model, p.dim) && ClustersDim(cs, p.dim)
    requires r.nextLabel != EOS_LABEL && forall i :: 0 <= i < |r.model| ==> r.model[i].tag != EOS_LABEL
    ensures var s := AcceptUpTo(p, r, cs, n);
      s.nextLabel != EOS_LABEL && forall i :: 0 <= i < |s.model| ==> s.model[i].tag != EOS_LABEL
  {
    hide Extends;
    if n > 0 {
      RoundMakesNoMark(p, r, cs, n - 1);
      var s := AcceptUpTo(p, r, cs, n - 1);
      if cs[n - 1].nMatches >= p.minExamples {
        var t := AcceptOne(p, s, cs[n - 1]);
        assert Looked(s.model, false, 0);
        assert forall i :: 0 <= i < |s.model| ==> t.model[i] == s.model[i];
      }
    }
  }

  /** The clusters a round adds. */
  function NewClusters(p: Params, r: Round, cs: seq<Cluster>): (news: seq<Cluster>)
    requires |r.model| > 0 && ClustersDim(r.model, p.dim) && ClustersDim(cs, p.dim)
    ensures ClustersDim(news, p.dim)
  {
    AcceptUpTo(p, r, cs, |cs|).model[|r.model|..]
  }

  /** Dropping rejected clusters does not change the nearest one, if that was accepted:
      order is kept, so ties are broken the same way. */
  lemma NearestAmongAccepted(cs: seq<Cluster>, news: seq<Cluster>, a: seq<nat>, x: Point, q: nat)
    requires ClustersDim(cs, |x|) && ClustersDim(news, |x|) && |a| == |news| && q < |a|
    requires forall i :: 0 <= i < |a| ==> a[i] < |cs| && news[i].center == cs[a[i]].center
    requires forall i, j :: 0 <= i < j < |a| ==> a[i] < a[j]
    requires IsNearest(cs, false, x, |cs|, a[q])
    ensures IsNearest(news, false, x, |news|, q)
  {
    hide Dist2;
    assert forall i :: 0 <= i < |news| ==> Looked(news, false, i) && Looked(cs, false, a[i]);
  }

  /** A new cluster that is nearest among the new ones, and reaches the example, consumes it. */
  lemma NearestConsumes(p: Params, news: seq<Cluster>, u: Unknown, q: nat)
    requires |news| > q && ClustersDim(news, |u.val|) && IsNearest(news, false, u.val, |news|, q)
    requires p.root(D2(news[q].center, u.val)) <= news[q].distanceMax
    ensures Consumed(p, news, u)
  {
    hide Dist2;
    assert Looked(news, false, 0);
    NearestUnique(news, false, u.val, |news|, q, NearestOf(news, false, u.val, |news|));
  }

  /** Every example owned by an accepted cluster is consumed. */
  lemma AcceptedConsume(p: Params, us: seq<Unknown>, id: nat, cs: seq<Cluster>, owner: seq<int>, r: Round, i: nat)
    requires UnknownsDim(us, p.dim) && i < |us| && Clustered(p, Values(us), id, cs, owner)
    requires |r.model| > 0 && ClustersDim(r.model, p.dim)
    ensures |owner| == |us| && 0 <= owner[i] < |cs| && ClustersDim(cs, p.dim)
    ensures cs[owner[i]].nMatches >= p.minExamples ==>
      |NewClusters(p, r, cs)| > 0 && Consumed(p, NewClusters(p, r, cs), us[i])
  {
    hide Dist2;
    hide Clustered;
    hide IsNearest;
    hide AcceptUpTo;
    hide Consumed;
    WithinDistanceMax(p, Values(us), id, cs, owner, i);
    if cs[owner[i]].nMatches >= p.minExamples {
      var a, news := AcceptedIndices(p, cs, |cs|), NewClusters(p, r, cs);
      AcceptedJoin(p, r, cs, |cs|);
      assert owner[i] in a;
      var q :| 0 <= q < |a| && a[q] == owner[i];
      forall j | 0 <= j < |a| ensures news[j].center == cs[a[j]].center {
        assert JoinedAs(cs[a[j]], news[j], |r.model| + j);
      }
      NearestAmongAccepted(cs, news, a, us[i].val, q);
      assert JoinedAs(cs[a[q]], news[q], |r.model| + q);
      NearestConsumes(p, news, us[i], q);
    }
  }

  /** Survivors are owned by rejected clusters. */
  lemma {:induction false} SurvivorsAreRejected(p: Params, us: seq<Unknown>, id: nat, cs: seq<Cluster>, owner: seq<int>,
                                                r: Round, lastNDCheck: nat, n: nat)
    requires UnknownsDim(us, p.dim) && n <= |us| && Clustered(p, Values(us), id, cs, owner)
    requires |cs| > 0 && ClustersDim(cs, p.dim) && OwnersIn(owner, Values(us), |cs|)
    requires |r.model| > 0 && ClustersDim(r.model, p.dim) && |NewClusters(p, r, cs)| > 0
    ensures |Survivors(p, NewClusters(p, r, cs), lastNDCheck, us, n)|
         <= WeightOfExamples(RejectWeights(cs, p.minExamples), owner, n)
  {
    hide Clustered;
    hide Consumed;
    hide NewClusters;
    if n > 0 {
      SurvivorsAreRejected(p, us, id, cs, owner, r, lastNDCheck, n - 1);
      AcceptedConsume(p, us, id, cs, owner, r, n - 1);
    }
  }

  lemma SomethingJoins(p: Params, r: Round, cs: seq<Cluster>)
    requires |r.model| > 0 && ClustersDim(r.model, p.dim) && ClustersDim(cs, p.dim)
    requires exists k :: 0 <= k < |cs| && cs[k].nMatches >= p.minExamples
    ensures |NewClusters(p, r, cs)| > 0
  {
    AcceptedJoin(p, r, cs, |cs|);
    var k :| 0 <= k < |cs| && cs[k].nMatches >= p.minExamples;
    assert k in AcceptedIndices(p, cs, |cs|);
  }

  /** The main fact of a novelty round on at least k*minExamples unknowns: it accepts a cluster,
      so the compaction always finds one, and at most (k-1)*(minExamples-1) unknowns remain. */
  lemma RoundConsumes(p: Params, us: seq<Unknown>, id: nat, cs: seq<Cluster>, r: Round, lastNDCheck: nat)
    requires p.k >= 1 && p.minExamples >= 1 && UnknownsDim(us, p.dim) && |us| >= p.minExamples * p.k
    requires p.k <= |us| && cs == ClusteringOf(p, Values(us), id)
    requires |r.model| > 0 && ClustersDim(r.model, p.dim)
    ensures ClustersDim(cs, p.dim) && |NewClusters(p, r, cs)| > 0
    ensures |Survivors(p, NewClusters(p, r, cs), lastNDCheck, us, |us|)| <= (p.k - 1) * (p.minExamples - 1)
  {
    hide ClusteringOf;
    hide NewClusters;
    hide Survivors;
    var xs := Values(us);
    var owner := Owners(cs, xs, p.dim);
    Pigeonhole(p, xs, id, cs, owner);
    SomethingJoins(p, r, cs);
    SurvivorsAreRejected(p, us, id, cs, owner, r, lastNDCheck, |us|);
  }

  /** The whole of `noveltyDetection` on a model, its label counter and the unknowns. */
  function RoundOf(p: Params, model: seq<Cluster>, nextLabel: nat, us: seq<Unknown>): (r: Round)
    requires 1 <= p.k <= |us| && UnknownsDim(us, p.dim) && |model| > 0 && ClustersDim(model, p.dim)
    ensures |r.model| >= |model| && r.model[..|model|] == model && ClustersDim(r.model, p.dim)
  {
    AcceptUpTo(p, Round(model, nextLabel, 0, 0), ClusteringOf(p, Values(us), |model| + 1), p.k)
  }

  /** What such a round promises to whoever stored enough unknowns. */
  lemma RoundOfConsumes(p: Params, model: seq<Cluster>, nextLabel: nat, us: seq<Unknown>, lastNDCheck: nat)
    requires p.k >= 1 && p.minExamples >= 1 && UnknownsDim(us, p.dim) && |us| >= p.minExamples * p.k && p.k <= |us|
    requires |model| > 0 && ClustersDim(model, p.dim)
    ensures var news := RoundOf(p, model, nextLabel, us).model[|model|..];
      && |news| > 0 && ClustersDim(news, p.dim)
      && |Survivors(p, news, lastNDCheck, us, |us|)| <= (p.k - 1) * (p.minExamples - 1)
  {
    hide ClusteringOf;
    hide Survivors;
    RoundConsumes(p, us, |model| + 1, ClusteringOf(p, Values(us), |model| + 1), Round(model, nextLabel, 0, 0),
                  lastNDCheck);
  }

  lemma NoNovelMark(p: Params, model: seq<Cluster>, nextLabel: nat, us: seq<Unknown>)
    requires 1 <= p.k <= |us| && UnknownsDim(us, p.dim) && |model| > 0 && ClustersDim(model, p.dim)
    ensures nextLabel != EOS_LABEL && (forall i :: 0 <= i < |model| ==> model[i].tag != EOS_LABEL) ==>
      forall i :: 0 <= i < |RoundOf(p, model, nextLabel, us).model| ==>
        RoundOf(p, model, nextLabel, us).model[i].tag != EOS_LABEL
  {
    hide ClusteringOf;
    hide AcceptUpTo;
    if nextLabel != EOS_LABEL && (forall i :: 0 <= i < |model| ==> model[i].tag != EOS_LABEL) {
      RoundMakesNoMark(p, Round(model, nextLabel, 0, 0), ClusteringOf(p, Values(us), |model| + 1), p.k);
    }
  }

  /** New clusters arrive awake and without misses, and their ids are their positions. */
  lemma NewClustersFresh(p: Params, model: seq<Cluster>, nextLabel: nat, us: seq<Unknown>)
    requires 1 <= p.k <= |us| && UnknownsDim(us, p.dim) && |model| > 0 && ClustersDim(model, p.dim)
    ensures var m := RoundOf(p, model, nextLabel, us).model;
      forall i :: |model| <= i < |m| ==> !m[i].isSleep && m[i].nMisses == 0 && m[i].id == i
  {
    hide ClusteringOf;
    hide AcceptUpTo;
    hide AcceptedIndices;
    var cs, r := ClusteringOf(p, Values(us), |model| + 1), Round(model, nextLabel, 0, 0);
    ClustersArriveFresh(p, Values(us), |model| + 1);
    AcceptedJoin(p, r, cs, p.k);
    var a, m := AcceptedIndices(p, cs, p.k), RoundOf(p, model, nextLabel, us).model;
    forall i | |model| <= i < |m| ensures !m[i].isSleep && m[i].nMisses == 0 && m[i].id == i {
      assert JoinedAs(cs[a[i - |model|]], m[|model| + (i - |model|)], |model| + (i - |model|));
    }
  }
}
