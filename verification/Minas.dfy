/** The MINAS state and its operations (src/base.c), and the serial loop (src/online-nd.c). */
module Minas {
  import opened Points
  import opened Search
  import opened Clustering
  import opened Unknowns
  import opened Labels
  import opened Novelty
  import opened Ledger
  import opened Sums
  import opened Sleep

  /** The answer of `identify`; `cluster` is an index into the model. */
  datatype Match = Match(pointId: nat, tag: nat, isMatch: bool, distance: real, cluster: nat)

  /** The cluster `identify` settles on: the search among awake clusters, or, when that answers
      NULL, the search among all. */
  function Chosen(model: seq<Cluster>, x: Point, garbage: real): (i: nat)
    requires |model| > 0 && ClustersDim(model, |x|)
    ensures i < |model|
    ensures IsNearest(model, true, x, |model|, i) || IsNearest(model, false, x, |model|, i)
  {
    assert Looked(model, false, 0);
    var j := Found(model, true, x, garbage);
    if j >= 0 then j else NearestOf(model, false, x, |model|)
  }

  /** Whether the search among awake clusters answers NULL. */
  predicate FallsBack(model: seq<Cluster>, x: Point, garbage: real)
    requires ClustersDim(model, |x|)
  {
    Found(model, true, x, garbage) < 0
  }

  function MatchOf(p: Params, model: seq<Cluster>, id: nat, x: Point, i: nat): Match
    requires i < |model| && |model[i].center| == |x|
  {
    var distance := p.root(D2(model[i].center, x));
    var isMatch := distance <= model[i].radius;
    Match(id, if isMatch then model[i].tag else UNKNOWN_LABEL, isMatch, distance, i)
  }

  /** The chosen cluster after it was hit or missed. */
  function Credited(c: Cluster, id: nat, isMatch: bool): (r: Cluster)
    ensures SEEN(r) == SEEN(c) + 1 && r.isSleep == c.isSleep
  {
    var d := c.(latestMatchId := Trunc32(id));
    if isMatch then d.(nMatches := d.nMatches + 1) else d.(nMisses := d.nMisses + 1)
  }

  /** The model after `restoreSleep`. */
  function Restored(model: seq<Cluster>, sleepCounter: nat, currId: nat): (r: seq<Cluster>)
    ensures |r| == |model|
    ensures forall i :: 0 <= i < |r| ==>
      r[i].center == model[i].center && r[i].radius == model[i].radius && r[i].tag == model[i].tag
  {
    if sleepCounter == 0 then model else Woken(model, currId)
  }

  /** Whether storing the latest unknown starts a novelty round. */
  predicate RoundDue(p: Params, size: nat, id: nat, lastNDCheck: nat) {
    size == p.unknownsMax || (size >= p.noveltyTrigger && Sub64(id, lastNDCheck) > p.noveltyTrigger)
  }

  /** Model and sleep counter after `identify`. */
  function Identified(p: Params, model: seq<Cluster>, sleepCounter: nat, currId: nat, id: nat, x: Point, garbage: real)
    : (r: (seq<Cluster>, nat))
    requires |model| > 0 && ClustersDim(model, |x|)
    ensures |r.0| == |model|
  {
    var m := MatchOf(p, model, id, x, Chosen(model, x, garbage));
    var fell := FallsBack(model, x, garbage);
    var base := if fell then Restored(model, sleepCounter, currId) else model;
    (base[m.cluster := Credited(base[m.cluster], id, m.isMatch)], if fell then 0 else sleepCounter)
  }

  /** Model and sleep counter after `minasHandleSleep`. */
  function Slept(p: Params, model: seq<Cluster>, sleepCounter: nat, currId: nat,
                 lastForgetCheck: nat): (r: (seq<Cluster>, nat))
    ensures |r.0| == |model|
  {
    if currId == 0 || Sub64(|model|, sleepCounter) <= 2 * p.k || Sub64(currId, lastForgetCheck) < p.forgetThreshold
    then (model, sleepCounter)
    else Drowse(p, model, currId, sleepCounter, 0)
  }

  /** A novelty round on model `base` and unknowns `us` led to `model`, `nextLabel` and `left`:
      the model grew by what `noveltyDetection` accepts, and the unknowns that stay are the
      stable filter of those it neither consumes nor finds too old. */
  ghost predicate RoundDone(p: Params, base: seq<Cluster>, label0: nat, lastNDCheck: nat, us: seq<Unknown>,
                            model: seq<Cluster>, nextLabel: nat, left: seq<Unknown>)
  {
    && 1 <= p.k <= |us| && UnknownsDim(us, p.dim) && |base| > 0 && ClustersDim(base, p.dim)
    && model == RoundOf(p, base, label0, us).model && nextLabel == RoundOf(p, base, label0, us).nextLabel
    && |base| < |model| && base == model[..|base|] && ClustersDim(model[|base|..], p.dim)
    && left == Survivors(p, model[|base|..], lastNDCheck, us, |us|)
    && |left| <= (p.k - 1) * (p.minExamples - 1)
  }

  /** The label counter after a cluster from outside was added. */
  function CounterAfter(nextLabel: nat, tag: nat): (r: nat) {
    if !IsAlpha(tag) && nextLabel <= tag then tag + 1 else nextLabel
  }

  /** An added cluster leaves the counter on a reserved label exactly when its label is the one
      just below '-', 'A' or 'a' and the counter had not passed it. */
  lemma CounterStaysUnreserved(nextLabel: nat, tag: nat)
    requires !Reserved(nextLabel)
    ensures Reserved(CounterAfter(nextLabel, tag)) <==> nextLabel <= tag && tag in {44, 64, 96}
  {
  }

  /** The NULL answer, and with it the waking of all clusters, is ruled out for every value the
      unset `minDist` may hold exactly when cluster 0 is awake. */
  lemma NeverFallsBack(model: seq<Cluster>, x: Point)
    requires ClustersDim(model, |x|)
    ensures (forall garbage: real :: !FallsBack(model, x, garbage)) <==> |model| > 0 && !model[0].isSleep
  {
    if |model| > 0 && model[0].isSleep {
      assert FallsBack(model, x, -1.0);
    } else if |model| > 0 {
      assert Looked(model, true, 0);
    } else {
      assert FallsBack(model, x, 0.0);
    }
  }

  /** With the sleep accounting in order, the search among awake clusters that is guarded on NULL,
      as intended, always has an answer. */
  lemma SomebodyAwake(model: seq<Cluster>, sleepCounter: nat, x: Point)
    requires |model| > 0 && ClustersDim(model, |x|) && sleepCounter == Sum(model, ASLEEP) && sleepCounter < |model|
    ensures NearestOf(model, true, x, |model|) >= 0
  {
    SomeAwake(model);
    var i :| 0 <= i < |model| && !model[i].isSleep;
    assert Looked(model, true, i);
  }

  /** The labels of a model, as the distributed program's models know it by. */
  function Tags(model: seq<Cluster>): (tags: seq<nat>)
    ensures |tags| == |model| && forall i :: 0 <= i < |model| ==> tags[i] == model[i].tag
  {
    seq(|model|, i requires 0 <= i < |model| => model[i].tag)
  }

  ghost predicate AnswersWith(p: Params, model: seq<Cluster>, x: Point, garbage: real, tag: nat) {
    && |model| > 0 && |x| == p.dim && ClustersDim(model, p.dim)
    && MatchOf(p, model, 0, x, Chosen(model, x, garbage)).tag == tag
  }

  /** Clusters with the given labels, all at the origin, of which only that at i is awake. */
  function OnlyAwake(known: seq<nat>, dim: nat, i: nat, radius: real): (model: seq<Cluster>)
    ensures |model| == |known| && ClustersDim(model, dim) && Tags(model) == known
    ensures forall j :: 0 <= j < |known| ==> model[j].isSleep == (j != i) && model[j].radius == radius
  {
    var x: Point := seq(dim, _ => 0.0);
    seq(|known|, j requires 0 <= j < |known| =>
      Cluster(j, known[j], 0, 0, 0, 0, j != i, x, x, 0.0, 0.0, 0.0, 0.0, 0.0, radius))
  }

  /** The only cluster awake is chosen, if what `minDist` holds does not rule it out. */
  lemma ChosenAwake(p: Params, known: seq<nat>, i: nat, radius: real, x: Point)
    requires i < |known| && |x| == p.dim
    ensures var model := OnlyAwake(known, p.dim, i, radius);
      Chosen(model, x, D2(model[i].center, x)) == i
  {
    hide Dist2;
    var model := OnlyAwake(known, p.dim, i, radius);
    forall j | 0 <= j < |model| ensures Looked(model, true, j) <==> j == i {}
    assert Looked(model, true, i);
    assert IsNearest(model, true, x, |model|, i);
    NearestUnique(model, true, x, |model|, i, NearestOf(model, true, x, |model|));
  }

  /** Where only labels are modelled an example is answered with any label of the model or the mark of
      unknowns, and that is exactly what `identify` answers for models with these labels. */
  lemma AnswersExactly(p: Params, known: seq<nat>, tag: nat)
    requires |known| > 0
    ensures MayAnswer(known, tag) <==>
      exists model, x, garbage :: Tags(model) == known && AnswersWith(p, model, x, garbage, tag)
  {
    hide D2;
    hide Chosen;
    if MayAnswer(known, tag) {
      var x: Point := seq(p.dim, _ => 0.0);
      var i :| 0 <= i < |known| && (tag == UNKNOWN_LABEL || known[i] == tag);
      var d := p.root(D2(x, x));
      var radius := if tag == UNKNOWN_LABEL then d - 1.0 else d;
      var model := OnlyAwake(known, p.dim, i, radius);
      ChosenAwake(p, known, i, radius, x);
      assert model[i].center == x && model[i].tag == known[i];
      assert AnswersWith(p, model, x, D2(model[i].center, x), tag);
    }
  }

  lemma {:induction false} SeenIsMatched(cs: seq<Cluster>)
    requires forall i :: 0 <= i < |cs| ==> cs[i].nMisses == 0
    ensures Sum(cs, SEEN) == Sum(cs, MATCHED)
  {
    if |cs| > 0 {
      SeenIsMatched(cs[..|cs| - 1]);
    }
  }

  /** The search among all clusters does not depend on who sleeps. */
  lemma SameChoice(was: seq<Cluster>, now: seq<Cluster>, x: Point, i: int)
    requires |was| == |now| > 0 && ClustersDim(was, |x|) && ClustersDim(now, |x|)
    requires forall k :: 0 <= k < |was| ==> was[k].center == now[k].center
    requires IsNearest(now, false, x, |now|, i)
    ensures i == NearestOf(was, false, x, |was|)
  {
    hide Dist2;
    assert forall k :: 0 <= k < |was| ==> Looked(was, false, k) && Looked(now, false, k);
    NearestUnique(was, false, x, |was|, i, NearestOf(was, false, x, |was|));
  }

  /** The search among awake clusters answers: somebody is awake, and cluster 0 is, or what the unset
      `minDist` holds does not rule out the nearest of those awake. */
  ghost predicate AwakeAnswers(model: seq<Cluster>, x: Point, garbage: real)
    requires ClustersDim(model, |x|)
  {
    exists j :: IsNearest(model, true, x, |model|, j) && (!model[0].isSleep || D2(model[j].center, x) <= garbage)
  }

  lemma AnswersOrFallsBack(model: seq<Cluster>, x: Point, garbage: real)
    requires |model| > 0 && ClustersDim(model, |x|)
    ensures AwakeAnswers(model, x, garbage) <==> !FallsBack(model, x, garbage)
    ensures IsNearest(model, AwakeAnswers(model, x, garbage), x, |model|, Chosen(model, x, garbage))
  {
    hide D2;
    assert Looked(model, false, 0);
    var i := NearestOf(model, true, x, |model|);
    if j :| IsNearest(model, true, x, |model|, j) && (!model[0].isSleep || D2(model[j].center, x) <= garbage) {
      NearestUnique(model, true, x, |model|, i, j);
    }
  }

  /** Of the chosen cluster the hits, misses and the time changed, and of the others nothing; besides,
      if all were woken, nobody sleeps and the others have the current time. */
  ghost predicate OnlyTimesChanged(was: seq<Cluster>, now: seq<Cluster>, chosen: nat, currId: nat, woken: bool) {
    && chosen < |was| == |now|
    && (forall i :: 0 <= i < |was| && i != chosen ==>
          now[i] == if woken then was[i].(latestMatchId := currId % 0x1_0000_0000, isSleep := false) else was[i])
    && var c, d := was[chosen], now[chosen];
       d == c.(nMatches := d.nMatches, nMisses := d.nMisses, latestMatchId := d.latestMatchId,
               isSleep := c.isSleep && !woken)
  }

  /** What identifying an example does to every field. */
  lemma IdentifiedFields(p: Params, model: seq<Cluster>, sleepCounter: nat, currId: nat, id: nat, x: Point,
                         garbage: real)
    requires |model| > 0 && ClustersDim(model, |x|)
    ensures var m := MatchOf(p, model, id, x, Chosen(model, x, garbage));
      var (now, sleep) := Identified(p, model, sleepCounter, currId, id, x, garbage);
      && |now| == |model| && sleep == (if AwakeAnswers(model, x, garbage) then sleepCounter else 0)
      && m.tag == (if m.isMatch then model[m.cluster].tag else 45)
      && IsNearest(model, AwakeAnswers(model, x, garbage), x, |model|, m.cluster)
      && var c, d := model[m.cluster], now[m.cluster];
         && d.nMatches == c.nMatches + (if m.distance <= c.radius then 1 else 0)
         && d.nMisses == c.nMisses + (if m.distance <= c.radius then 0 else 1)
         && d.latestMatchId == id % 0x1_0000_0000
         && OnlyTimesChanged(model, now, m.cluster, currId, !AwakeAnswers(model, x, garbage) && sleepCounter != 0)
  {
    hide D2;
    hide IsNearest;
    hide AwakeAnswers;
    hide FallsBack;
    hide Chosen;
    AnswersOrFallsBack(model, x, garbage);
  }

  class MinasState {
    const p: Params
    const unknowns: UnknownBuffer
    var model: seq<Cluster>
    var lastNDCheck: nat
    var lastForgetCheck: nat
    var currId: nat
    var nextId: nat
    var sleepCounter: nat
    var nextLabel: nat
    /** Examples identified so far. */
    ghost var classified: nat
    /** Hits and misses that clusters had when they joined: of those from outside, and of those that
        novelty detection found. */
    ghost var carried: nat
    /** Of both, the hits. */
    ghost var matched: nat
    ghost var carriedHits: nat

    /** Hits and misses are those of the examples identified, and what clusters brought along. */
    ghost predicate LedgerOk()
      reads this
    {
      Sum(model, SEEN) == classified + carried && Sum(model, MATCHED) == matched + carriedHits
    }

    ghost predicate Valid()
      reads this, unknowns, unknowns.slots, unknowns.rows
    {
      && p.Valid()
      && unknowns.Valid() && unknowns.dim == p.dim && unknowns.slots.Length == p.unknownsMax + 1
      && unknowns.size < p.unknownsMax
      && ClustersDim(model, p.dim)
      && LedgerOk()
      && LabelsBelow(model, nextLabel)
    }

    /** The sleep accounting. */
    ghost predicate SleepOk()
      reads this
    {
      sleepCounter == Sum(model, ASLEEP) && (|model| > 0 ==> sleepCounter < |model|)
    }

    constructor (p: Params)
      requires p.Valid()
      ensures Valid() && SleepOk() && this.p == p && model == [] && unknowns.Contents() == []
      ensures lastNDCheck == lastForgetCheck == currId == nextId == sleepCounter == nextLabel == 0
      ensures classified == carried == matched == carriedHits == 0
      ensures fresh(unknowns) && fresh(unknowns.slots) && forall i :: 0 <= i < |unknowns.rows| ==>
        fresh(unknowns.rows[i])
    {
      this.p := p;
      unknowns := new UnknownBuffer(p.dim, p.unknownsMax + 1);
      model := [];
      lastNDCheck, lastForgetCheck, currId, nextId, sleepCounter, nextLabel := 0, 0, 0, 0, 0, 0;
      classified, carried, matched, carriedHits := 0, 0, 0, 0;
      new;
      assert p.unknownsMax > 0 by {
        assert p.minExamples * p.k >= 1;
      }
    }

    /** src/base.c `restoreSleep`. */
    method RestoreSleep()
      modifies this`model, this`sleepCounter
      ensures model == Restored(old(model), old(sleepCounter), currId) && sleepCounter == 0
      ensures old(sleepCounter) == 0 ==> model == old(model)
      ensures old(sleepCounter) != 0 ==> |model| == |old(model)| && forall i :: 0 <= i < |model| ==>
        model[i] == old(model)[i].(latestMatchId := currId % 0x1_0000_0000, isSleep := false)
      ensures LabelsBelow(old(model), nextLabel) ==> LabelsBelow(model, nextLabel)
      ensures old(Valid()) ==> Valid()
      ensures old(SleepOk()) ==> SleepOk() && forall i :: 0 <= i < |model| ==> !model[i].isSleep
      ensures old(LedgerOk()) ==> LedgerOk()
    {
      SomeAwake(model);
      WokenAllAwake(model, currId);
      if sleepCounter == 0 {
        return;
      }
      ghost var was := model;
      for k := 0 to |model|
        invariant |model| == |was|
        invariant forall i :: 0 <= i < k ==> model[i] == was[i].(latestMatchId := Trunc32(currId), isSleep := false)
        invariant forall i :: k <= i < |was| ==> model[i] == was[i]
      {
        model := model[k := model[k].(latestMatchId := Trunc32(currId), isSleep := false)];
      }
      assert model == Woken(was, currId);
      sleepCounter := 0;
    }

    lemma SleptLabels(was: seq<Cluster>, ds: seq<Cluster>)
      requires OnlyStaleSlept(p, was, ds, currId)
      ensures LabelsBelow(was, nextLabel) ==> LabelsBelow(ds, nextLabel)
      ensures ClustersDim(was, p.dim) ==> ClustersDim(ds, p.dim)
    {
      hide Stale;
      assert forall i :: 0 <= i < |was| ==> was[i].tag == ds[i].tag;
    }

    lemma DrowseKeepsValid(was: seq<Cluster>, before: nat)
      requires p.k >= 1
      ensures var (ds, c) := Drowse(p, was, currId, before, 0);
        && OnlyStaleSlept(p, was, ds, currId)
        && Sum(ds, SEEN) == Sum(was, SEEN) && Sum(ds, MATCHED) == Sum(was, MATCHED)
        && (before == Sum(was, ASLEEP) && |was| - before > 2 * p.k ==> c == Sum(ds, ASLEEP) < |ds|)
    {
      hide Drowse;
      hide Sum;
      DrowseCounts(p, was, currId, before, 0);
      var (ds, c) := Drowse(p, was, currId, before, 0);
      SumSame(ds, was, SEEN);
      SumSame(ds, was, MATCHED);
      if before == Sum(was, ASLEEP) && |was| - before > 2 * p.k {
        DrowseLeavesOneAwake(p, was, currId, before);
      }
    }

    /** src/base.c `minasHandleSleep`. */
    method HandleSleep()
      requires Valid()
      modifies this`model, this`sleepCounter
      ensures Valid()
      ensures (model, sleepCounter) == Slept(p, old(model), old(sleepCounter), currId, lastForgetCheck)
      ensures if currId != 0 && Sub64(|old(model)|, old(sleepCounter)) > 2 * p.k
                 && Sub64(currId, lastForgetCheck) >= p.forgetThreshold
        then exists stop :: DozedUntil(p, old(model), old(sleepCounter), currId, 0, model, sleepCounter, stop)
        else model == old(model) && sleepCounter == old(sleepCounter)
      ensures OnlyStaleSlept(p, old(model), model, currId)
      ensures old(SleepOk()) ==> SleepOk()
    {
      hide DozedUntil;
      hide Sub64;
      hide Sum;
      hide LabelsBelow;
      if currId == 0 {
        return;
      }
      var idDiff := Sub64(currId, lastForgetCheck);
      var active := Sub64(|model|, sleepCounter);
      if active <= 2 * p.k || idDiff < p.forgetThreshold {
        return;
      }
      ghost var was, before := model, sleepCounter;
      DrowseKeepsValid(was, before);
      SleptLabels(was, Drowse(p, was, currId, before, 0).0);
      ghost var stop := DrowseStops(p, was, currId, before, 0);
      for k := 0 to |model|
        invariant |model| == |was|
        invariant Drowse(p, model, currId, sleepCounter, k) == Drowse(p, was, currId, before, 0)
      {
        if model[k].isSleep {
          continue;
        }
        if Sub64(currId, model[k].latestMatchId) > p.forgetThreshold {
          sleepCounter := sleepCounter + 1;
          model := model[k := model[k].(isSleep := true)];
        }
        if sleepCounter >= 2 * p.k {
          break;
        }
      }
    }

    /** src/base.c `addCluster`; what the cluster brings along is carried. */
    method AddCluster(c: Cluster) returns (index: nat)
      requires Valid() && |c.center| == p.dim
      modifies this`model, this`nextLabel, this`carried, this`carriedHits
      ensures Valid() && index == |old(model)|
      ensures model == old(model) + [c] && nextLabel == CounterAfter(old(nextLabel), c.tag)
      ensures c.tag < old(nextLabel) || 65 <= c.tag <= 90 || 97 <= c.tag <= 122 ==> nextLabel == old(nextLabel)
      ensures c.tag >= old(nextLabel) && !(65 <= c.tag <= 90) && !(97 <= c.tag <= 122) ==> nextLabel == c.tag + 1
      ensures carried == old(carried) + c.nMatches + c.nMisses && carriedHits == old(carriedHits) + c.nMatches
      ensures old(SleepOk()) ==> (SleepOk() <==> !c.isSleep)
    {
      hide Sum;
      SumAppend(model, c, SEEN);
      SumAppend(model, c, MATCHED);
      SumAppend(model, c, ASLEEP);
      SomeAwake(model);
      index := |model|;
      model := model + [c];
      carried, carriedHits := carried + SEEN(c), carriedHits + c.nMatches;
      if !IsAlpha(c.tag) && nextLabel <= c.tag {
        nextLabel := c.tag + 1;
      }
    }

    /** The searches of `identify`. */
    method FindCluster(x: Point, garbage: real) returns (distance: real, cluster: int)
      requires Valid() && |model| > 0 && |x| == p.dim
      modifies this`model, this`sleepCounter
      ensures Valid()
      ensures cluster == Chosen(old(model), x, garbage) && distance == p.root(D2(old(model)[cluster].center, x))
      ensures FallsBack(old(model), x, garbage) ==>
        model == Restored(old(model), old(sleepCounter), currId) && sleepCounter == 0
      ensures !FallsBack(old(model), x, garbage) ==> model == old(model) && sleepCounter == old(sleepCounter)
      ensures old(SleepOk()) ==> SleepOk()
    {
      hide D2;
      hide IsNearest;
      hide Sum;
      ghost var was := model;
      distance, cluster := NearestClusterVal(p.dim, model, x, true, garbage, p.root);
      if cluster < 0 {
        RestoreSleep();
        distance, cluster := NearestOfAll(p.dim, model, x, p.root);
        SameChoice(was, model, x, cluster);
      }
    }

    /** The bookkeeping of `identify`. */
    method Credit(id: nat, cluster: nat, distance: real) returns (m: Match)
      requires Valid() && cluster < |model|
      modifies this`model, this`classified, this`matched
      ensures Valid() && classified == old(classified) + 1
      ensures matched == old(matched) + (if m.isMatch then 1 else 0)
      ensures m.isMatch == (distance <= old(model)[cluster].radius)
      ensures m == Match(id, if m.isMatch then old(model)[cluster].tag else UNKNOWN_LABEL, m.isMatch, distance, cluster)
      ensures model == old(model)[cluster := Credited(old(model)[cluster], id, m.isMatch)]
      ensures old(SleepOk()) ==> SleepOk()
    {
      hide Sum;
      var c := model[cluster].(latestMatchId := Trunc32(id));
      if distance <= c.radius {
        m := Match(id, c.tag, true, distance, cluster);
        c := c.(nMatches := c.nMatches + 1);
      } else {
        m := Match(id, UNKNOWN_LABEL, false, distance, cluster);
        c := c.(nMisses := c.nMisses + 1);
      }
      assert c == Credited(model[cluster], id, m.isMatch);
      SumUpdate(model, cluster, c, SEEN);
      SumUpdate(model, cluster, c, MATCHED);
      SumUpdate(model, cluster, c, ASLEEP);
      model := model[cluster := c];
      classified, matched := classified + 1, matched + (if m.isMatch then 1 else 0);
    }

    /** src/base.c `identify`; `garbage` is what `minDist` holds before the search among awake
        clusters. Its check that a cluster was found never fails. */
    method Identify(id: nat, x: Point, garbage: real) returns (m: Match)
      requires Valid() && |model| > 0 && |x| == p.dim
      modifies this`model, this`sleepCounter, this`classified, this`matched
      ensures Valid() && classified == old(classified) + 1
      ensures matched == old(matched) + (if m.isMatch then 1 else 0)
      ensures m == MatchOf(p, old(model), id, x, Chosen(old(model), x, garbage))
      ensures (model, sleepCounter) == Identified(p, old(model), old(sleepCounter), currId, id, x, garbage)
      ensures m.cluster < |model| == |old(model)| && m.distance == p.root(D2(old(model)[m.cluster].center, x))
      ensures m.isMatch <==> m.distance <= old(model)[m.cluster].radius
      ensures m.tag == (if m.isMatch then old(model)[m.cluster].tag else 45) && m.pointId == id
      ensures var c, d := old(model)[m.cluster], model[m.cluster];
        && d.nMatches == c.nMatches + (if m.distance <= c.radius then 1 else 0)
        && d.nMisses == c.nMisses + (if m.distance <= c.radius then 0 else 1)
        && d.latestMatchId == id % 0x1_0000_0000
      ensures if AwakeAnswers(old(model), x, garbage)
        then IsNearest(old(model), true, x, |model|, m.cluster) && sleepCounter == old(sleepCounter)
        else IsNearest(old(model), false, x, |model|, m.cluster) && sleepCounter == 0
      ensures OnlyTimesChanged(old(model), model, m.cluster, currId,
                               !AwakeAnswers(old(model), x, garbage) && old(sleepCounter) != 0)
      ensures old(SleepOk()) ==> SleepOk()
    {
      hide D2;
      hide Sum;
      hide Chosen;
      hide FallsBack;
      IdentifiedFields(p, model, sleepCounter, currId, id, x, garbage);
      var distance, cluster := FindCluster(x, garbage);
      assert 0 <= cluster < |model|;
      m := Credit(id, cluster, distance);
    }

    lemma JoinLedger(was: seq<Cluster>, added: seq<Cluster>)
      requires forall i :: 0 <= i < |added| ==> !added[i].isSleep && added[i].nMisses == 0
      ensures Sum(was + added, SEEN) == Sum(was, SEEN) + Sum(added, MATCHED)
      ensures Sum(was + added, MATCHED) == Sum(was, MATCHED) + Sum(added, MATCHED)
      ensures Sum(was + added, ASLEEP) == Sum(was, ASLEEP)
    {
      SumConcat(was, added, SEEN);
      SumConcat(was, added, MATCHED);
      SumConcat(was, added, ASLEEP);
      SumZero(added, ASLEEP);
      SeenIsMatched(added);
    }

    /** What a round does to the sums, the counts and the labels. */
    lemma RoundLedger(was: seq<Cluster>, label0: nat, us: seq<Unknown>)
      requires 1 <= p.k <= |us| && UnknownsDim(us, p.dim) && |was| > 0 && ClustersDim(was, p.dim)
      requires LabelsBelow(was, label0)
      ensures var r := RoundOf(p, was, label0, us);
        && r.novelties + r.extensions == |r.model| - |was|
        && LabelsBelow(r.model, r.nextLabel)
        && (!Reserved(label0) ==> !Reserved(r.nextLabel) && AllNovel(p, r.model, |was|))
        && Sum(r.model, SEEN) == Sum(was, SEEN) + Sum(r.model[|was|..], MATCHED)
        && Sum(r.model, MATCHED) == Sum(was, MATCHED) + Sum(r.model[|was|..], MATCHED)
        && Sum(r.model, ASLEEP) == Sum(was, ASLEEP)
    {
      hide ClusteringOf;
      hide Sum;
      hide AcceptUpTo;
      hide AcceptedIndices;
      var clusters, start := ClusteringOf(p, Values(us), |was| + 1), Round(was, label0, 0, 0);
      var r := RoundOf(p, was, label0, us);
      AcceptedJoin(p, start, clusters, p.k);
      LabelsStayBelow(p, start, clusters, p.k);
      if !Reserved(label0) {
        RoundIsNovel(p, start, clusters, p.k);
      }
      NewClustersFresh(p, was, label0, us);
      JoinLedger(was, r.model[|was|..]);
      assert r.model == was + r.model[|was|..];
    }

    /** One accepted cluster: extension or novelty, then it joins the model. */
    method AcceptCluster(c: Cluster, ghost r: Round) returns (isExtension: bool)
      requires |model| > 0 && ClustersDim(model, p.dim) && |c.center| == p.dim
      requires r.model == model && r.nextLabel == nextLabel
      modifies this`model, this`nextLabel
      ensures var n, e := if isExtension then 0 else 1, if isExtension then 1 else 0;
        AcceptOne(p, r, c) == Round(model, nextLabel, r.novelties + n, r.extensions + e)
    {
      hide D2;
      hide IsNearest;
      var minDist, nearest := NearestOfAll(p.dim, model, c.center, p.root);
      SameChoice(model, model, c.center, nearest);
      var joined := c;
      isExtension := minDist <= p.noveltyF * model[nearest].distanceStdDev;
      if isExtension {
        joined := joined.(tag := model[nearest].tag, extensionOf := model[nearest].id);
      } else {
        joined := joined.(tag := nextLabel);
        nextLabel := BumpLabel(nextLabel);
      }
      model := model + [joined.(id := |model|)];
    }

    /** src/base.c `noveltyDetection`; the model must not be empty. */
    method DetectNovelty() returns (news: nat, novelties: nat)
      requires p.Valid() && unknowns.Valid() && unknowns.dim == p.dim && p.k <= unknowns.size
      requires |model| > 0 && ClustersDim(model, p.dim)
      requires LedgerOk() && LabelsBelow(model, nextLabel)
      modifies this`model, this`nextLabel, this`carried, this`carriedHits
      ensures ClustersDim(model, p.dim) && LabelsBelow(model, nextLabel)
      ensures LedgerOk()
      ensures var r := RoundOf(p, old(model), old(nextLabel), unknowns.Contents());
        && model == r.model && nextLabel == r.nextLabel && novelties == r.novelties
        && news == r.novelties + r.extensions == |model| - |old(model)|
      ensures carried == old(carried) + Sum(model[|old(model)|..], MATCHED)
      ensures carriedHits - old(carriedHits) == carried - old(carried)
      ensures !Reserved(old(nextLabel)) ==> !Reserved(nextLabel) && AllNovel(p, model, |old(model)|)
      ensures old(SleepOk()) ==> SleepOk()
    {
      hide ClusteringOf;
      hide FromRun;
      hide D2;
      hide Sum;
      hide IsNearest;
      ghost var us, was, label0 := unknowns.Contents(), model, nextLabel;
      var xs := unknowns.ReadValues();
      var ok, clusters := ClusterExamples(p, xs, |model| + 1);
      ghost var start := Round(was, label0, 0, 0);
      var extensions := 0;
      novelties := 0;
      for k := 0 to p.k
        invariant |model| > 0 && ClustersDim(model, p.dim)
        invariant carried == old(carried) && carriedHits == old(carriedHits)
        invariant Round(model, nextLabel, novelties, extensions) == AcceptUpTo(p, start, clusters, k)
      {
        if clusters[k].nMatches < p.minExamples {
          continue;
        }
        var isExtension := AcceptCluster(clusters[k], Round(model, nextLabel, novelties, extensions));
        if isExtension {
          extensions := extensions + 1;
        } else {
          novelties := novelties + 1;
        }
      }
      news := novelties + extensions;
      assert Round(model, nextLabel, novelties, extensions) == RoundOf(p, was, label0, us);
      RoundLedger(was, label0, us);
      carried, carriedHits := carried + Sum(model[|was|..], MATCHED), carriedHits + Sum(model[|was|..], MATCHED);
    }

    lemma EnoughUnknowns(size: nat)
      requires p.Valid() && (size == p.unknownsMax || size >= p.noveltyTrigger)
      ensures p.k <= size && size >= p.minExamples * p.k
      ensures (p.k - 1) * (p.minExamples - 1) < p.unknownsMax
    {
      assert p.minExamples * p.k >= p.k;
      assert (p.k - 1) * (p.minExamples - 1) == p.minExamples * p.k - p.k - p.minExamples + 1;
    }

    /** The novelty round of `minasHandleUnknown`. */
    method RunRound() returns (news: nat)
      requires p.Valid() && unknowns.Valid() && unknowns.dim == p.dim && unknowns.slots.Length == p.unknownsMax + 1
      requires ClustersDim(model, p.dim) && LedgerOk() && LabelsBelow(model, nextLabel)
      requires |model| > 0 && unknowns.size >= p.noveltyTrigger
      modifies this`model, this`nextLabel, this`carried, this`carriedHits, this`sleepCounter, this`lastNDCheck
      modifies unknowns`size, unknowns.slots, unknowns.rows
      ensures Valid()
      ensures RoundDone(p, Restored(old(model), old(sleepCounter), currId), old(nextLabel), old(lastNDCheck),
                        old(unknowns.Contents()), model, nextLabel, unknowns.Contents())
      ensures exists at :: LeftAt(p, model[|old(model)|..], old(lastNDCheck), old(unknowns.Contents()),
                                  |old(unknowns.Contents())|, unknowns.Contents(), at)
      ensures news == |model| - |old(model)|
      ensures sleepCounter == 0 && lastNDCheck == currId
      ensures carried == old(carried) + Sum(model[|old(model)|..], MATCHED)
      ensures carriedHits - old(carriedHits) == carried - old(carried)
      ensures !Reserved(old(nextLabel)) ==> !Reserved(nextLabel) && AllNovel(p, model, |old(model)|)
      ensures old(SleepOk()) ==> SleepOk()
    {
      hide ClusteringOf;
      hide Sum;
      hide D2;
      hide AllNovel;
      hide Woken;
      hide IsNearest;
      hide UnknownBuffer.View;
      hide UnknownBuffer.Contents;
      hide TakenAt;
      hide LeftAt;
      hide Survivors;
      hide RoundOf;
      hide Novel;
      hide Reserved;
      hide LabelsBelow;
      EnoughUnknowns(unknowns.size);
      ghost var us := unknowns.Contents();
      RestoreSleep();
      ghost var base := model;
      var prevSize := |model|;
      RoundOfConsumes(p, base, nextLabel, us, lastNDCheck);
      var noveltyCount;
      news, noveltyCount := DetectNovelty();
      var garbageCollected, consumed := unknowns.Compact(p, model[prevSize..], lastNDCheck);
      lastNDCheck := currId;
    }

    /** src/base.c `minasHandleUnknown`. The overflow block at its end is dead: a full buffer
        always starts a round, and a round always makes room. */
    method HandleUnknown(id: nat, val: array<real>) returns (news: nat)
      requires Valid() && |model| > 0 && val.Length == p.dim && val !in unknowns.rows
      modifies this`model, this`nextLabel, this`carried, this`carriedHits
      modifies this`sleepCounter, this`currId, this`lastNDCheck
      modifies unknowns`size, unknowns.slots, unknowns.rows
      ensures Valid() && currId == id
      ensures var us := old(unknowns.Contents()) + [Unknown(id, old(val[..]))];
        if !(|us| == p.unknownsMax
             || (|us| >= p.noveltyTrigger && Sub64(id, old(lastNDCheck)) > p.noveltyTrigger))
        then news == 0 && model == old(model) && nextLabel == old(nextLabel) && carried == old(carried)
          && sleepCounter == old(sleepCounter) && lastNDCheck == old(lastNDCheck) && unknowns.Contents() == us
        else
          && RoundDone(p, Restored(old(model), old(sleepCounter), id), old(nextLabel), old(lastNDCheck), us,
                       model, nextLabel, unknowns.Contents())
          && (exists at :: LeftAt(p, model[|old(model)|..], old(lastNDCheck), us, |us|, unknowns.Contents(), at))
          && sleepCounter == 0 && lastNDCheck == id && news == |model| - |old(model)|
          && carried == old(carried) + Sum(model[|old(model)|..], MATCHED)
      ensures carriedHits - old(carriedHits) == carried - old(carried)
      ensures !Reserved(old(nextLabel)) ==> !Reserved(nextLabel) && AllNovel(p, model, |old(model)|)
      ensures old(SleepOk()) ==> SleepOk()
    {
      hide Sum;
      hide LeftAt;
      hide RoundDone;
      news := 0;
      currId := id;
      unknowns.Store(id, val);
      if unknowns.size == p.unknownsMax ||
         (unknowns.size >= p.noveltyTrigger && Sub64(currId, lastNDCheck) > p.noveltyTrigger)
      {
        EnoughUnknowns(unknowns.size);
        news := RunRound();
        assert RoundDone(p, Restored(old(model), old(sleepCounter), id), old(nextLabel), old(lastNDCheck),
                         old(unknowns.Contents()) + [Unknown(id, old(val[..]))], model, nextLabel, unknowns.Contents());
      }
      if unknowns.size >= p.unknownsMax {
        assert false;
      }
    }
  }
}
