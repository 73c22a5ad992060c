/** The replicated model (src/threaded-mpi.c): the root appends clusters and broadcasts each one as
    a header and a centre, every other rank adds what it receives, and at the end the root gathers
    the counters of all ranks. Broadcasts are taken by all ranks in one order. The broadcasts end
    with a header labelled with the end-of-stream mark, and a receiver takes any such header so. */
module Replicas {
  import opened Points
  import opened Sums
  import opened Ledger
  import opened Minas
  import opened Unknowns
  import opened Labels
  import opened Novelty

  datatype Msg = Header(c: Cluster) | Centre(p: Point)

  /** A rank other than the root: its copy of the model, how many messages it took, the header it
      waits for a centre for, and the examples it identified as matches and as others. */
  datatype Leaf = Leaf(
    model: seq<Cluster>, cursor: nat, header: seq<Cluster>, failed: bool, stopped: bool, matched: nat, missed: nat)

  /** `sent` clusters of the root are broadcast whole; `halfSent` says that the next header is. */
  datatype Sys = Sys(
    inputs: seq<Cluster>, root: seq<Cluster>, log: seq<Msg>, sent: nat, halfSent: bool, stopped: bool,
    carried: nat, rounds: nat, leaves: seq<Leaf>)

  datatype Event =
    | ReadCluster | NoveltyRound(found: seq<Cluster>) | SendHeader | SendCentre | SendStop(junk: Cluster)
    | Receive(r: nat) | Identify(r: nat, i: nat, id: nat, isMatch: bool)

  /** A header is the record without its centre: the pointer in it means nothing elsewhere. */
  function Stripped(c: Cluster): Cluster {
    c.(center := [])
  }

  /** A cluster as a novelty round appends it: its id is the size of the model. */
  function Joined(found: seq<Cluster>, size: nat): (r: seq<Cluster>)
    ensures |r| == |found|
  {
    seq(|found|, i requires 0 <= i < |found| => found[i].(id := size + i, nMisses := 0))
  }

  ghost predicate NoMark(cs: seq<Cluster>) {
    forall i :: 0 <= i < |cs| ==> cs[i].tag != EOS_LABEL
  }

  /** What `noveltyDetection` does to the model is such a step, and it brings no mark if there is
      none. */
  lemma DetectionIsRound(p: Params, model: seq<Cluster>, nextLabel: nat, us: seq<Unknown>)
    requires 1 <= p.k <= |us| && UnknownsDim(us, p.dim) && |model| > 0 && ClustersDim(model, p.dim)
    ensures var m := RoundOf(p, model, nextLabel, us).model;
      && m == model + Joined(m[|model|..], |model|)
      && (NoMark(model) && nextLabel != EOS_LABEL ==> NoMark(m[|model|..]))
  {
    hide RoundOf;
    NewClustersFresh(p, model, nextLabel, us);
    NoNovelMark(p, model, nextLabel, us);
    var m := RoundOf(p, model, nextLabel, us).model;
    assert m == m[..|model|] + m[|model|..];
    var found := m[|model|..];
    forall i | 0 <= i < |found| ensures Joined(found, |model|)[i] == found[i] {
      assert found[i] == m[|model| + i];
    }
    assert Joined(found, |model|) == found;
  }

  /** Reading and detecting do not overlap with a cluster's broadcast by the other thread; the
      detector stops after the sampler did. */
  ghost predicate Enabled(s: Sys, e: Event) {
    match e
    case ReadCluster => |s.inputs| > 0 && s.sent == |s.root| && !s.stopped
    case NoveltyRound(found) => s.sent == |s.root| && !s.stopped && (NoMark(s.root) ==> NoMark(found))
    case SendHeader => s.sent < |s.root| && !s.halfSent
    case SendCentre => s.sent < |s.root| && s.halfSent
    case SendStop(junk) => s.sent == |s.root| && |s.inputs| == 0 && !s.stopped
    case Receive(r) =>
      r < |s.leaves| && !s.leaves[r].failed && !s.leaves[r].stopped && s.leaves[r].cursor < |s.log|
    case Identify(r, i, id, isMatch) => r < |s.leaves| && !s.leaves[r].failed && i < |s.leaves[r].model|
  }

  /** `m_receiver` takes one message: a header with the mark ends it, and a cluster whose id is not
      the size of the model fails the rank's assertion. */
  function Received(l: Leaf, m: Msg): Leaf {
    var l := l.(cursor := l.cursor + 1);
    match m
    case Header(c) => if c.tag == EOS_LABEL then l.(stopped := true) else l.(header := [c])
    case Centre(p) =>
      if |l.header| == 0 then l
      else if l.header[0].id != |l.model| then l.(failed := true)
      else l.(model := l.model + [l.header[0].(center := p)], header := [])
  }

  ghost function Do(s: Sys, e: Event): (t: Sys)
    requires Enabled(s, e)
    ensures |t.leaves| == |s.leaves|
  {
    match e
    case ReadCluster =>
      var c := s.inputs[0];
      if |s.root| <= c.id then s.(inputs := s.inputs[1..], root := s.root + [c]) else s.(inputs := s.inputs[1..])
    case NoveltyRound(found) =>
      s.(root := s.root + Joined(found, |s.root|), carried := s.carried + Sum(found, MATCHED), rounds := s.rounds + 1)
    case SendHeader => s.(log := s.log + [Header(Stripped(s.root[s.sent]))], halfSent := true)
    case SendCentre => s.(log := s.log + [Centre(s.root[s.sent].center)], halfSent := false, sent := s.sent + 1)
    case SendStop(junk) => s.(log := s.log + [Header(junk.(tag := EOS_LABEL))], stopped := true)
    case Receive(r) => s.(leaves := s.leaves[r := Received(s.leaves[r], s.log[s.leaves[r].cursor])])
    case Identify(r, i, id, isMatch) =>
      var l := s.leaves[r];
      s.(leaves := s.leaves[r := l.(model := l.model[i := Credited(l.model[i], id, isMatch)],
                                    matched := l.matched + (if isMatch then 1 else 0),
                                    missed := l.missed + (if isMatch then 0 else 1))])
  }

  ghost predicate Cleared(cs: seq<Cluster>) {
    forall i :: 0 <= i < |cs| ==> cs[i].nMatches == 0 && cs[i].nMisses == 0
  }

  /** Input clusters arrive with cleared counters. */
  ghost predicate Start(s: Sys) {
    && s.root == [] && s.log == [] && s.sent == 0 && !s.halfSent && !s.stopped && s.carried == 0 && s.rounds == 0
    && Cleared(s.inputs)
    && (forall r :: 0 <= r < |s.leaves| ==> s.leaves[r] == Leaf([], 0, [], false, false, 0, 0))
  }

  ghost function Next(s: Sys, e: Event): (t: Sys)
    ensures |t.leaves| == |s.leaves|
  {
    if Enabled(s, e) then Do(s, e) else s
  }

  /** The state after a schedule; events that are not possible are passed over. */
  ghost function Exec(s: Sys, schedule: seq<Event>): (t: Sys)
    ensures |t.leaves| == |s.leaves|
  {
    if |schedule| == 0 then s
    else
      Next(Exec(s, schedule[..|schedule| - 1]), schedule[|schedule| - 1])
  }

  /** Two ranks agree on a cluster: everything but counters and times of use. */
  ghost predicate Agree(a: Cluster, b: Cluster) {
    a.id == b.id && a.tag == b.tag && a.center == b.center && a.radius == b.radius
    && a.distanceStdDev == b.distanceStdDev && a.extensionOf == b.extensionOf
  }

  ghost predicate IsPrefix(model: seq<Cluster>, root: seq<Cluster>) {
    |model| <= |root| && forall i :: 0 <= i < |model| ==> Agree(model[i], root[i])
  }

  /** The log is the root's clusters in order, header and centre each, then the stop. */
  ghost predicate LogOk(s: Sys) {
    && s.sent <= |s.root| && (s.halfSent ==> s.sent < |s.root| && !s.stopped)
    && |s.log| == 2 * s.sent + (if s.halfSent then 1 else 0) + (if s.stopped then 1 else 0)
    && (forall i :: 0 <= i < s.sent ==>
          s.log[2 * i] == Header(Stripped(s.root[i])) && s.log[2 * i + 1] == Centre(s.root[i].center))
    && (s.halfSent ==> s.log[2 * s.sent] == Header(Stripped(s.root[s.sent])))
    && (s.stopped ==>
          s.log[2 * s.sent].Header? && s.log[2 * s.sent].c.tag == EOS_LABEL && s.sent == |s.root| && s.inputs == [])
  }

  ghost predicate LeafOk(s: Sys, l: Leaf) {
    !l.failed ==>
      && l.cursor == 2 * |l.model| + |l.header| + (if l.stopped then 1 else 0) && l.cursor <= |s.log|
      && IsPrefix(l.model, s.root) && |l.header| <= 1
      && (|l.header| == 1 ==> |l.model| < |s.root| && l.header[0] == Stripped(s.root[|l.model|]))
      && (l.stopped ==> l.header == [])
      && (l.stopped ==> if |l.model| < |s.root| then s.root[|l.model|].tag == EOS_LABEL else s.stopped)
      && (forall i :: 0 <= i < |l.model| ==> s.root[i].id == i && s.root[i].tag != EOS_LABEL)
      && (|l.header| == 1 ==> l.header[0].tag != EOS_LABEL)
  }

  /** What a rank's clusters saw: its own examples, and what came with the clusters. */
  ghost predicate LeafLedger(s: Sys, l: Leaf) {
    !l.failed && |l.model| <= |s.root| ==>
      && Sum(l.model, MATCHED) == l.matched + Sum(s.root[..|l.model|], MATCHED)
      && Sum(l.model, MISSED) == l.missed + Sum(s.root[..|l.model|], MISSED)
  }

  ghost predicate Inv(s: Sys) {
    && LogOk(s) && Sum(s.root, MATCHED) == s.carried && Sum(s.root, MISSED) == 0
    && Cleared(s.inputs)
    && (forall r :: 0 <= r < |s.leaves| ==> LeafOk(s, s.leaves[r]) && LeafLedger(s, s.leaves[r]))
  }

  lemma JoinedCounts(found: seq<Cluster>, size: nat)
    ensures Sum(Joined(found, size), MATCHED) == Sum(found, MATCHED) && Sum(Joined(found, size), MISSED) == 0
  {
    SumSame(Joined(found, size), found, MATCHED);
    SumZero(Joined(found, size), MISSED);
  }

  /** The root grows: whatever a leaf held stays in step with it. */
  lemma LeavesOutlive(s: Sys, more: seq<Cluster>, l: Leaf)
    requires LeafOk(s, l) && LeafLedger(s, l)
    ensures var t := s.(root := s.root + more);
      (s.stopped ==> more == []) ==> LeafOk(t, l) && LeafLedger(t, l)
  {
    if !l.failed {
      assert (s.root + more)[..|l.model|] == s.root[..|l.model|];
    }
  }

  /** What a rank takes next: the header or the centre it is due, or the stop when it has all. */
  lemma NextMessage(s: Sys, l: Leaf)
    requires LogOk(s) && LeafOk(s, l) && !l.failed && !l.stopped && l.cursor < |s.log|
    ensures var n, m := |l.model|, s.log[l.cursor];
      if l.header == [] then
        if n < |s.root| then m == Header(Stripped(s.root[n]))
        else m.Header? && m.c.tag == EOS_LABEL && s.stopped
      else
        m == Centre(s.root[n].center)
  {
    hide Sum;
    assert l.cursor == 2 * |l.model| + |l.header|;
  }

  lemma ReceiveOk(s: Sys, r: nat)
    requires Inv(s) && Enabled(s, Receive(r))
    ensures var l := Do(s, Receive(r)).leaves[r]; LeafOk(s, l) && LeafLedger(s, l)
  {
    hide Sum;
    hide LogOk;
    var l := s.leaves[r];
    var n := |l.model|;
    assert LeafOk(s, l) && LeafLedger(s, l);
    NextMessage(s, l);
    if |l.header| == 1 {
      assert s.root[..n + 1] == s.root[..n] + [s.root[n]];
      SumAppend(s.root[..n], s.root[n], MATCHED);
      SumAppend(s.root[..n], s.root[n], MISSED);
      SumAppend(l.model, l.header[0].(center := s.root[n].center), MATCHED);
      SumAppend(l.model, l.header[0].(center := s.root[n].center), MISSED);
    }
  }

  lemma IdentifyOk(s: Sys, e: Event)
    requires Inv(s) && e.Identify? && Enabled(s, e)
    ensures var l := Do(s, e).leaves[e.r]; LeafOk(s, l) && LeafLedger(s, l)
  {
    hide Sum;
    hide LogOk;
    var l := s.leaves[e.r];
    assert LeafOk(s, l) && LeafLedger(s, l);
    SumUpdate(l.model, e.i, Credited(l.model[e.i], e.id, e.isMatch), MATCHED);
    SumUpdate(l.model, e.i, Credited(l.model[e.i], e.id, e.isMatch), MISSED);
  }

  /** The root appends clusters, while all it has is broadcast and it has not stopped. */
  lemma GrowOk(s: Sys, t: Sys, more: seq<Cluster>)
    requires Inv(s) && s.sent == |s.root| && !s.stopped
    requires t
        == s.(root := s.root + more, inputs := t.inputs, carried := s.carried + Sum(more, MATCHED), rounds := t.rounds)
    requires Sum(more, MISSED) == 0 && Cleared(t.inputs)
    ensures Inv(t)
  {
    hide Sum;
    SumConcat(s.root, more, MATCHED);
    SumConcat(s.root, more, MISSED);
    forall r | 0 <= r < |s.leaves| ensures LeafOk(t, s.leaves[r]) && LeafLedger(t, s.leaves[r]) {
      LeavesOutlive(s, more, s.leaves[r]);
      assert LeafOk(s.(root := s.root + more), s.leaves[r]);
    }
  }

  /** The root broadcasts. */
  lemma SendOk(s: Sys, e: Event)
    requires Inv(s) && Enabled(s, e) && (e.SendHeader? || e.SendCentre? || e.SendStop?)
    ensures Inv(Do(s, e))
  {
    hide Sum;
    hide IsPrefix;
    var t := Do(s, e);
    forall r | 0 <= r < |s.leaves| ensures LeafOk(t, s.leaves[r]) && LeafLedger(t, s.leaves[r]) {
      assert LeafOk(s, s.leaves[r]) && LeafLedger(s, s.leaves[r]);
    }
  }

  /** One leaf changes. */
  lemma LeafStepOk(s: Sys, r: nat, l: Leaf)
    requires Inv(s) && r < |s.leaves| && LeafOk(s, l) && LeafLedger(s, l)
    ensures Inv(s.(leaves := s.leaves[r := l]))
  {
    hide Sum;
    hide IsPrefix;
    var t := s.(leaves := s.leaves[r := l]);
    forall q | 0 <= q < |t.leaves| ensures LeafOk(t, t.leaves[q]) && LeafLedger(t, t.leaves[q]) {
      assert LeafOk(s, t.leaves[q]) && LeafLedger(s, t.leaves[q]);
    }
  }

  lemma InputsClear(s: Sys)
    requires Inv(s)
    ensures Cleared(s.inputs)
  {
  }

  lemma ReadOk(s: Sys)
    requires Inv(s) && Enabled(s, ReadCluster)
    ensures Inv(Do(s, ReadCluster))
  {
    hide Inv;
    var t := Do(s, ReadCluster);
    InputsClear(s);
    if |s.root| <= s.inputs[0].id {
      SumOne(s.inputs[0], MATCHED);
      SumOne(s.inputs[0], MISSED);
      GrowOk(s, t, [s.inputs[0]]);
    } else {
      assert s.root + [] == s.root;
      GrowOk(s, t, []);
    }
  }

  /** Every step keeps the invariant. */
  lemma StepOk(s: Sys, e: Event)
    requires Inv(s) && Enabled(s, e)
    ensures Inv(Do(s, e))
  {
    hide Inv;
    hide LeafOk;
    hide LeafLedger;
    match e
    case ReadCluster => ReadOk(s);
    case NoveltyRound(found) =>
      JoinedCounts(found, |s.root|);
      InputsClear(s);
      GrowOk(s, Do(s, e), Joined(found, |s.root|));
    case SendHeader => SendOk(s, e);
    case SendCentre => SendOk(s, e);
    case SendStop(_) => SendOk(s, e);
    case Receive(r) =>
      ReceiveOk(s, r);
      LeafStepOk(s, r, Do(s, e).leaves[r]);
    case Identify(r, i, id, isMatch) =>
      IdentifyOk(s, e);
      LeafStepOk(s, r, Do(s, e).leaves[r]);
  }

  lemma StartOk(s: Sys)
    requires Start(s)
    ensures Inv(s)
  {
    SumZero(s.root, MATCHED);
    SumZero(s.root, MISSED);
  }

  lemma {:induction false} EveryRun(s: Sys, schedule: seq<Event>)
    requires Start(s)
    ensures Inv(Exec(s, schedule))
  {
    hide Do;
    hide Inv;
    StartOk(s);
    if |schedule| > 0 {
      EveryRun(s, schedule[..|schedule| - 1]);
      var t, e := Exec(s, schedule[..|schedule| - 1]), schedule[|schedule| - 1];
      if Enabled(t, e) {
        StepOk(t, e);
      }
    }
  }

  /** Replica agreement: in every state of every run, the model of a rank whose assertion has not
      failed is a prefix of the root's; it stopped at the root's first mark, or has all of it. */
  lemma ReplicasAgree(s: Sys, schedule: seq<Event>, r: nat)
    requires Start(s) && r < |s.leaves|
    ensures var t := Exec(s, schedule);
      var l := t.leaves[r];
      !l.failed ==>
        && IsPrefix(l.model, t.root) && NoMark(t.root[..|l.model|])
        && (l.stopped ==> |l.model| == |t.root| || t.root[|l.model|].tag == EOS_LABEL)
  {
    EveryRun(s, schedule);
    var t := Exec(s, schedule);
    assert LeafOk(t, t.leaves[r]);
  }

  /** How often rank r counted a hit, or a miss, for cluster i in a run. */
  ghost function Counted(s: Sys, schedule: seq<Event>, r: nat, i: nat, hit: bool): nat {
    if |schedule| == 0 then 0
    else
      var before, e := schedule[..|schedule| - 1], schedule[|schedule| - 1];
      Counted(s, before, r, i, hit)
      + (if Enabled(Exec(s, before), e) && e.Identify? && e.r == r && e.i == i && e.isMatch == hit then 1 else 0)
  }

  lemma LeavesShort(s: Sys, r: nat)
    requires Inv(s) && r < |s.leaves|
    ensures !s.leaves[r].failed ==> |s.leaves[r].model| <= |s.root|
  {
    assert LeafOk(s, s.leaves[r]);
  }

  /** A cluster arrives with the root's counters. */
  lemma ReceiveCounts(s: Sys, r: nat)
    requires Inv(s) && Enabled(s, Receive(r)) && !Do(s, Receive(r)).leaves[r].failed
    ensures var l, m := s.leaves[r], Do(s, Receive(r)).leaves[r];
      && |l.model| <= |m.model| <= |l.model| + 1 && |m.model| <= |s.root| && m.model[..|l.model|] == l.model
      && (|m.model| > |l.model| ==>
            var c, d := m.model[|l.model|], s.root[|l.model|];
            c.nMatches == d.nMatches && c.nMisses == d.nMisses)
  {
    hide Sum;
    hide LogOk;
    assert LeafOk(s, s.leaves[r]);
    NextMessage(s, s.leaves[r]);
    hide IsPrefix;
  }

  /** What one step does to one counter of one rank; a cluster arrives with the root's counters. */
  lemma StepCounts(s: Sys, e: Event, r: nat, i: nat)
    requires Inv(s) && Enabled(s, e) && r < |s.leaves| && !Do(s, e).leaves[r].failed
    ensures var l, m := s.leaves[r], Do(s, e).leaves[r];
      !l.failed && |l.model| <= |m.model| <= |Do(s, e).root| && |l.model| <= |s.root| <= |Do(s, e).root|
    ensures var l, m, hit := s.leaves[r], Do(s, e).leaves[r], e.Identify? && e.r == r && e.i == i;
      && (i < |l.model| ==>
            && m.model[i].nMatches == l.model[i].nMatches + (if hit && e.isMatch then 1 else 0)
            && m.model[i].nMisses == l.model[i].nMisses + (if hit && !e.isMatch then 1 else 0))
      && (|l.model| <= i < |m.model| ==>
            i < |s.root| && m.model[i].nMatches == s.root[i].nMatches && m.model[i].nMisses == s.root[i].nMisses)
      && (hit ==> i < |l.model|)
      && (i < |s.root| ==> Do(s, e).root[i] == s.root[i])
  {
    hide Sum;
    hide Inv;
    hide Received;
    LeavesShort(s, r);
    if e.Receive? && e.r == r {
      ReceiveCounts(s, r);
    }
  }

  /** The counters of a cluster on a rank are what it came with, and one for each example that the
      rank gave to that cluster: a hit for a match, else a miss. */
  lemma {:induction false} ClusterLedger(s: Sys, schedule: seq<Event>, r: nat, i: nat)
    requires Start(s) && r < |s.leaves| && !Exec(s, schedule).leaves[r].failed
    ensures var t := Exec(s, schedule);
      var m := t.leaves[r].model;
      && |m| <= |t.root|
      && (i >= |m| ==> Counted(s, schedule, r, i, true) == Counted(s, schedule, r, i, false) == 0)
      && (i < |m| ==>
            && m[i].nMatches == t.root[i].nMatches + Counted(s, schedule, r, i, true)
            && m[i].nMisses == t.root[i].nMisses + Counted(s, schedule, r, i, false))
  {
    hide Do;
    hide Inv;
    hide Enabled;
    if |schedule| > 0 {
      var before, e := schedule[..|schedule| - 1], schedule[|schedule| - 1];
      var t := Exec(s, before);
      EveryRun(s, before);
      if Enabled(t, e) {
        StepCounts(t, e, r, i);
      }
      ClusterLedger(s, before, r, i);
    }
  }

  /** Input ids are contiguous from n on: each one is the size of the model, or repeats an
      earlier one and is ignored. */
  predicate Contiguous(inputs: seq<Cluster>, n: nat) {
    |inputs| == 0
    || (inputs[0].id < n && Contiguous(inputs[1..], n))
    || (inputs[0].id == n && Contiguous(inputs[1..], n + 1))
  }

  lemma {:induction false} ContiguousLater(inputs: seq<Cluster>, n: nat, m: nat)
    requires Contiguous(inputs, n) && n <= m
    ensures Contiguous(inputs, m)
  {
    if |inputs| > 0 {
      var k := if inputs[0].id < n then n else n + 1;
      ContiguousLater(inputs[1..], k, if inputs[0].id < m then m else m + 1);
    }
  }

  ghost predicate IdsInPlace(root: seq<Cluster>) {
    forall i :: 0 <= i < |root| ==> root[i].id == i
  }

  /** With contiguous input, every cluster of the root has its index for an id, and no rank fails. */
  ghost predicate NoGap(s: Sys) {
    IdsInPlace(s.root) && Contiguous(s.inputs, |s.root|) && forall r :: 0 <= r < |s.leaves| ==> !s.leaves[r].failed
  }

  lemma ReceivesWell(s: Sys, r: nat)
    requires Inv(s) && Enabled(s, Receive(r)) && IdsInPlace(s.root)
    ensures !Do(s, Receive(r)).leaves[r].failed
  {
    hide Sum;
    hide LogOk;
    assert LeafOk(s, s.leaves[r]);
  }

  lemma NoGapKept(s: Sys, e: Event)
    requires Inv(s) && NoGap(s) && Enabled(s, e)
    ensures NoGap(Do(s, e))
  {
    hide Sum;
    hide LogOk;
    hide LeafLedger;
    hide IsPrefix;
    if e.NoveltyRound? {
      ContiguousLater(s.inputs, |s.root|, |s.root| + |e.found|);
    } else if e.Receive? {
      ReceivesWell(s, e.r);
    } else {
      hide LeafOk;
    }
  }

  /** The assertion of `m_receiver` never fires, in any interleaving. */
  lemma {:induction false} NeverFails(s: Sys, schedule: seq<Event>)
    requires Start(s) && Contiguous(s.inputs, 0)
    ensures NoGap(Exec(s, schedule))
  {
    hide Do;
    hide Inv;
    if |schedule| > 0 {
      NeverFails(s, schedule[..|schedule| - 1]);
      var t, e := Exec(s, schedule[..|schedule| - 1]), schedule[|schedule| - 1];
      if Enabled(t, e) {
        EveryRun(s, schedule[..|schedule| - 1]);
        NoGapKept(t, e);
      }
    }
  }

  /** Input clusters that are added have the size of the model for an id, and no mark for a label. */
  predicate Acceptable(inputs: seq<Cluster>, n: nat) {
    |inputs| == 0
    || (inputs[0].id < n && Acceptable(inputs[1..], n))
    || (inputs[0].id == n && inputs[0].tag != EOS_LABEL && Acceptable(inputs[1..], n + 1))
  }

  lemma {:induction false} AcceptableLater(inputs: seq<Cluster>, n: nat, m: nat)
    requires Acceptable(inputs, n) && n <= m
    ensures Acceptable(inputs, m)
  {
    if |inputs| > 0 {
      var k := if inputs[0].id < n then n else n + 1;
      AcceptableLater(inputs[1..], k, if inputs[0].id < m then m else m + 1);
    }
  }

  lemma {:induction false} AcceptableFits(inputs: seq<Cluster>, n: nat)
    requires Acceptable(inputs, n)
    ensures Contiguous(inputs, n)
  {
    if |inputs| > 0 {
      AcceptableFits(inputs[1..], if inputs[0].id < n then n else n + 1);
    }
  }

  lemma {:induction false} UnmarkedFits(inputs: seq<Cluster>, n: nat)
    requires Contiguous(inputs, n) && NoMark(inputs)
    ensures Acceptable(inputs, n)
  {
    if |inputs| > 0 {
      UnmarkedFits(inputs[1..], if inputs[0].id < n then n else n + 1);
    }
  }

  lemma StepUnmarked(s: Sys, e: Event)
    requires Enabled(s, e) && NoMark(s.root) && Acceptable(s.inputs, |s.root|)
    ensures var t := Do(s, e); NoMark(t.root) && Acceptable(t.inputs, |t.root|)
  {
    hide Sum;
    if e.NoveltyRound? {
      AcceptableLater(s.inputs, |s.root|, |s.root| + |e.found|);
    }
  }

  /** With acceptable input no mark gets into the root's model. */
  lemma {:induction false} NeverMarked(s: Sys, schedule: seq<Event>)
    requires Start(s) && Acceptable(s.inputs, 0)
    ensures var t := Exec(s, schedule); NoMark(t.root) && Acceptable(t.inputs, |t.root|)
  {
    hide Do;
    hide Enabled;
    if |schedule| > 0 {
      NeverMarked(s, schedule[..|schedule| - 1]);
      var t, e := Exec(s, schedule[..|schedule| - 1]), schedule[|schedule| - 1];
      if Enabled(t, e) {
        StepUnmarked(t, e);
      }
    }
  }

  lemma StepUnmarkedInput(s: Sys, e: Event)
    requires Enabled(s, e) && NoMark(s.root) && NoMark(s.inputs)
    ensures NoMark(Do(s, e).root) && NoMark(Do(s, e).inputs)
  {
    hide Sum;
  }

  lemma {:induction false} NeverMarkedInput(s: Sys, schedule: seq<Event>)
    requires Start(s) && NoMark(s.inputs)
    ensures var t := Exec(s, schedule); NoMark(t.root) && NoMark(t.inputs)
  {
    hide Do;
    hide Enabled;
    if |schedule| > 0 {
      NeverMarkedInput(s, schedule[..|schedule| - 1]);
      var t, e := Exec(s, schedule[..|schedule| - 1]), schedule[|schedule| - 1];
      if Enabled(t, e) {
        StepUnmarkedInput(t, e);
      }
    }
  }

  /** While no novelty round came, the input so far and to come tells whether all is in place. */
  ghost predicate InPlace(inputs: seq<Cluster>, t: Sys) {
    t.rounds == 0 ==>
      (Acceptable(inputs, 0) <==> IdsInPlace(t.root) && NoMark(t.root) && Acceptable(t.inputs, |t.root|))
  }

  lemma RootGrows(root: seq<Cluster>, c: Cluster)
    ensures IdsInPlace(root + [c]) <==> IdsInPlace(root) && c.id == |root|
    ensures NoMark(root + [c]) <==> NoMark(root) && c.tag != EOS_LABEL
  {
    var more := root + [c];
    assert more[|root|] == c && forall i :: 0 <= i < |root| ==> more[i] == root[i];
  }

  lemma StepInPlace(inputs: seq<Cluster>, s: Sys, e: Event)
    requires Enabled(s, e) && InPlace(inputs, s)
    ensures InPlace(inputs, Do(s, e))
  {
    hide Sum;
    if e.ReadCluster? && |s.root| <= s.inputs[0].id {
      RootGrows(s.root, s.inputs[0]);
      hide IdsInPlace;
      hide NoMark;
    } else if !e.NoveltyRound? {
      assert Do(s, e).root == s.root;
    }
  }

  lemma {:induction false} MisfitShows(s: Sys, schedule: seq<Event>)
    requires Start(s)
    ensures InPlace(s.inputs, Exec(s, schedule))
  {
    hide Do;
    hide Enabled;
    if |schedule| > 0 {
      MisfitShows(s, schedule[..|schedule| - 1]);
      var t, e := Exec(s, schedule[..|schedule| - 1]), schedule[|schedule| - 1];
      if Enabled(t, e) {
        StepInPlace(s.inputs, t, e);
      }
    }
  }

  /** Every input cluster in turn read, broadcast and received by the first leaf. */
  ghost function Feeding(n: nat): seq<Event> {
    if n == 0 then []
    else Feeding(n - 1) + [ReadCluster] + [SendHeader] + [SendCentre] + [Receive(0)] + [Receive(0)]
  }

  lemma ExecSnoc(s: Sys, schedule: seq<Event>, e: Event)
    ensures Exec(s, schedule + [e]) == Next(Exec(s, schedule), e)
  {
    assert (schedule + [e])[..|schedule|] == schedule;
  }

  /** The first leaf failed its assertion, or stopped before it had the whole model. */
  ghost predicate Astray(t: Sys)
    requires |t.leaves| > 0
  {
    t.leaves[0].failed || (t.leaves[0].stopped && |t.leaves[0].model| < |t.root|)
  }

  /** All that was read is broadcast, and the first leaf took it all or went astray. */
  ghost predicate Fed(s: Sys, t: Sys, n: nat)
    requires n <= |s.inputs| && |t.leaves| > 0
  {
    && t.rounds == 0
    && (Astray(t)
        || (t.inputs == s.inputs[n..] && t.sent == |t.root| && !t.halfSent && !t.stopped && !t.leaves[0].stopped
            && |t.leaves[0].model| == |t.root| && t.leaves[0].cursor == |t.log| && t.leaves[0].header == []))
  }

  lemma StaysAstray(t: Sys, e: Event)
    requires |t.leaves| > 0 && Astray(t)
    ensures Astray(Next(t, e))
  {
  }

  lemma FeedOne(s: Sys, t: Sys, n: nat)
    requires n < |s.inputs| && |t.leaves| > 0 && Fed(s, t, n)
    ensures Fed(s, Next(Next(Next(Next(Next(t, ReadCluster), SendHeader), SendCentre), Receive(0)), Receive(0)), n + 1)
  {
    hide Sum;
    var u := Next(t, ReadCluster);
    var v := Next(Next(u, SendHeader), SendCentre);
    if Astray(t) {
      StaysAstray(t, ReadCluster);
      StaysAstray(u, SendHeader);
      StaysAstray(Next(u, SendHeader), SendCentre);
      StaysAstray(v, Receive(0));
      StaysAstray(Next(v, Receive(0)), Receive(0));
    } else {
      assert s.inputs[n..][1..] == s.inputs[n + 1..];
      if |t.root| <= t.inputs[0].id {
        assert v.log == t.log + [Header(Stripped(t.inputs[0]))] + [Centre(t.inputs[0].center)];
        assert v.leaves == t.leaves;
      } else {
        assert Next(Next(v, Receive(0)), Receive(0)) == u;
      }
    }
  }

  lemma {:induction false} FeedAll(s: Sys, n: nat)
    requires Start(s) && |s.leaves| > 0 && n <= |s.inputs|
    ensures Fed(s, Exec(s, Feeding(n)), n)
  {
    hide Next;
    if n > 0 {
      FeedAll(s, n - 1);
      FeedOne(s, Exec(s, Feeding(n - 1)), n - 1);
      ExecSnoc(s, Feeding(n - 1), ReadCluster);
      ExecSnoc(s, Feeding(n - 1) + [ReadCluster], SendHeader);
      ExecSnoc(s, Feeding(n - 1) + [ReadCluster] + [SendHeader], SendCentre);
      ExecSnoc(s, Feeding(n - 1) + [ReadCluster] + [SendHeader] + [SendCentre], Receive(0));
      ExecSnoc(s, Feeding(n - 1) + [ReadCluster] + [SendHeader] + [SendCentre] + [Receive(0)], Receive(0));
    }
  }

  /** Input that is not acceptable leads the first leaf astray, with no novelty round at all. */
  lemma MisfitLeadsAstray(s: Sys)
    requires Start(s) && |s.leaves| > 0 && !Acceptable(s.inputs, 0)
    ensures Astray(Exec(s, Feeding(|s.inputs|)))
  {
    var schedule := Feeding(|s.inputs|);
    var t := Exec(s, schedule);
    FeedAll(s, |s.inputs|);
    MisfitShows(s, schedule);
    EveryRun(s, schedule);
    assert LeafOk(t, t.leaves[0]) && LogOk(t);
  }

  lemma StopsWhole(s: Sys, schedule: seq<Event>, r: nat)
    requires Start(s) && Acceptable(s.inputs, 0) && r < |s.leaves|
    ensures var t := Exec(s, schedule);
      !t.leaves[r].failed && (t.leaves[r].stopped ==> |t.leaves[r].model| == |t.root|)
  {
    AcceptableFits(s.inputs, 0);
    NeverFails(s, schedule);
    NeverMarked(s, schedule);
    EveryRun(s, schedule);
    assert LeafOk(Exec(s, schedule), Exec(s, schedule).leaves[r]);
  }

  /** No rank ever fails its assertion, and each rank that stopped has the whole model, in all runs
      of an input, exactly if each input cluster that is added has the next id, and not the mark for
      a label. */
  lemma RanksFollow(s: Sys)
    requires Start(s) && |s.leaves| > 0
    ensures (forall schedule, r: nat | r < |s.leaves| ::
               var t := Exec(s, schedule);
               !t.leaves[r].failed && (t.leaves[r].stopped ==> |t.leaves[r].model| == |t.root|))
       <==> Acceptable(s.inputs, 0)
  {
    hide Exec;
    hide Start;
    if Acceptable(s.inputs, 0) {
      forall schedule, r: nat | r < |s.leaves|
        ensures var t := Exec(s, schedule);
          !t.leaves[r].failed && (t.leaves[r].stopped ==> |t.leaves[r].model| == |t.root|)
      {
        StopsWhole(s, schedule, r);
      }
    } else {
      var schedule := Feeding(|s.inputs|);
      MisfitLeadsAstray(s);
      assert Exec(s, schedule).leaves[0].failed || |Exec(s, schedule).leaves[0].model| < |Exec(s, schedule).root|;
    }
  }

  /** The assertion `cl->id == model->size` is safe in all runs of an input without the mark exactly
      if its ids are contiguous. */
  lemma AssertionSafe(s: Sys)
    requires Start(s) && |s.leaves| > 0 && NoMark(s.inputs)
    ensures (forall schedule, r: nat | r < |s.leaves| :: !Exec(s, schedule).leaves[r].failed)
       <==> Contiguous(s.inputs, 0)
  {
    hide Exec;
    if Contiguous(s.inputs, 0) {
      forall schedule, r: nat | r < |s.leaves| ensures !Exec(s, schedule).leaves[r].failed {
        NeverFails(s, schedule);
      }
    } else {
      var schedule := Feeding(|s.inputs|);
      if Acceptable(s.inputs, 0) { AcceptableFits(s.inputs, 0); }
      MisfitLeadsAstray(s);
      NeverMarkedInput(s, schedule);
      ReplicasAgree(s, schedule, 0);
      assert Exec(s, schedule).leaves[0].failed;
    }
  }

  /** With contiguous ids, a rank that stopped has the whole model in all runs exactly if no input
      cluster that is added is labelled with the mark. */
  lemma StopSafe(s: Sys)
    requires Start(s) && |s.leaves| > 0 && Contiguous(s.inputs, 0)
    ensures (forall schedule, r: nat | r < |s.leaves| ::
               Exec(s, schedule).leaves[r].stopped ==> |Exec(s, schedule).leaves[r].model| == |Exec(s, schedule).root|)
       <==> Acceptable(s.inputs, 0)
  {
    hide Exec;
    if Acceptable(s.inputs, 0) {
      forall schedule, r: nat | r < |s.leaves|
        ensures Exec(s, schedule).leaves[r].stopped ==> |Exec(s, schedule).leaves[r].model| == |Exec(s, schedule).root|
      {
        StopsWhole(s, schedule, r);
      }
    } else {
      var schedule := Feeding(|s.inputs|);
      MisfitLeadsAstray(s);
      NeverFails(s, schedule);
      assert Exec(s, schedule).leaves[0].stopped;
    }
  }

  /** The counter f of cluster i. */
  function At(f: Cluster -> nat, i: nat): seq<Cluster> -> nat {
    (m: seq<Cluster>) => if i < |m| then f(m[i]) else 0
  }

  ghost predicate SameSizes(models: seq<seq<Cluster>>) {
    |models| > 0 && forall j :: 0 <= j < |models| ==> |models[j]| == |models[0]|
  }

  /** The root's clusters with the counters of all ranks added up. */
  ghost predicate IsGathered(models: seq<seq<Cluster>>, merged: seq<Cluster>) {
    && SameSizes(models) && |merged| == |models[0]|
    && forall i :: 0 <= i < |merged| ==>
         merged[i] == models[0][i].(nMatches := Sum(models, At(MATCHED, i)), nMisses := Sum(models, At(MISSED, i)))
  }

  /** One rank's counters are added to the root's. */
  method AddRank(merged0: seq<Cluster>, model: seq<Cluster>) returns (merged: seq<Cluster>)
    requires |merged0| == |model|
    ensures |merged| == |model|
    ensures forall i :: 0 <= i < |model| ==>
      merged[i] == merged0[i].(nMatches := merged0[i].nMatches + model[i].nMatches,
                               nMisses := merged0[i].nMisses + model[i].nMisses)
  {
    merged := merged0;
    for i := 0 to |model|
      invariant |merged| == |model|
      invariant forall q :: i <= q < |model| ==> merged[q] == merged0[q]
      invariant forall q :: 0 <= q < i ==>
        merged[q] == merged0[q].(nMatches := merged0[q].nMatches + model[q].nMatches,
                                 nMisses := merged0[q].nMisses + model[q].nMisses)
    {
      merged := merged[i := merged[i].(nMatches := merged[i].nMatches + model[i].nMatches,
                                       nMisses := merged[i].nMisses + model[i].nMisses)];
    }
  }

  lemma SumNothing()
    ensures forall f: seq<Cluster> -> nat :: Sum([], f) == 0
  {
  }

  lemma OneRankMore(models: seq<seq<Cluster>>, j: nat, f: Cluster -> nat, i: nat)
    requires j < |models| && i < |models[j]|
    ensures Sum(models[..j + 1], At(f, i)) == Sum(models[..j], At(f, i)) + f(models[j][i])
  {
    hide Sum;
    assert models[..j + 1] == models[..j] + [models[j]];
    SumAppend(models[..j], models[j], At(f, i));
  }

  /** The final gather: the root clears its counters and adds those of every rank, its own first. */
  method Gather(models: seq<seq<Cluster>>) returns (merged: seq<Cluster>)
    requires SameSizes(models)
    ensures IsGathered(models, merged)
  {
    hide Sum;
    hide At;
    merged := seq(|models[0]|, i requires 0 <= i < |models[0]| => models[0][i].(nMatches := 0, nMisses := 0));
    assert models[..0] == [];
    SumNothing();
    for j := 0 to |models|
      invariant |merged| == |models[0]|
      invariant forall i :: 0 <= i < |merged| ==>
        merged[i] == models[0][i].(nMatches := Sum(models[..j], At(MATCHED, i)),
                                   nMisses := Sum(models[..j], At(MISSED, i)))
    {
      merged := AddRank(merged, models[j]);
      forall i | 0 <= i < |merged|
        ensures Sum(models[..j + 1], At(MATCHED, i)) == Sum(models[..j], At(MATCHED, i)) + models[j][i].nMatches
        ensures Sum(models[..j + 1], At(MISSED, i)) == Sum(models[..j], At(MISSED, i)) + models[j][i].nMisses
      {
        OneRankMore(models, j, MATCHED, i);
        OneRankMore(models, j, MISSED, i);
      }
    }
    assert models[..|models|] == models;
  }

  function UpTo(f: Cluster -> nat, n: nat): seq<Cluster> -> nat {
    (m: seq<Cluster>) => if n <= |m| then Sum(m[..n], f) else 0
  }

  lemma OneMore(m: seq<Cluster>, f: Cluster -> nat, n: nat)
    requires 0 < n <= |m|
    ensures UpTo(f, n)(m) == UpTo(f, n - 1)(m) + At(f, n - 1)(m)
    ensures Sum(m[..n], f) == Sum(m[..n - 1], f) + f(m[n - 1])
  {
    hide Sum;
    assert m[..n] == m[..n - 1] + [m[n - 1]];
    SumAppend(m[..n - 1], m[n - 1], f);
  }

  lemma UpToNone(models: seq<seq<Cluster>>, cs: seq<Cluster>, f: Cluster -> nat)
    ensures Sum(models, UpTo(f, 0)) == 0 && Sum(cs[..0], f) == 0
  {
    SumZero(models, UpTo(f, 0));
  }

  /** The counter f was gathered. */
  ghost predicate Counts(models: seq<seq<Cluster>>, merged: seq<Cluster>, f: Cluster -> nat) {
    && SameSizes(models) && |merged| == |models[0]|
    && forall i :: 0 <= i < |merged| ==> f(merged[i]) == Sum(models, At(f, i))
  }

  /** Adding up by cluster is adding up by rank. */
  lemma {:induction false} GatherUpTo(models: seq<seq<Cluster>>, merged: seq<Cluster>, f: Cluster -> nat, n: nat)
    requires Counts(models, merged, f) && n <= |merged|
    ensures Sum(merged[..n], f) == Sum(models, UpTo(f, n))
  {
    hide Sum;
    if n == 0 {
      UpToNone(models, merged, f);
    } else {
      GatherUpTo(models, merged, f, n - 1);
      OneMore(merged, f, n);
      forall j | 0 <= j < |models|
        ensures UpTo(f, n)(models[j]) == UpTo(f, n - 1)(models[j]) + At(f, n - 1)(models[j])
      {
        OneMore(models[j], f, n);
      }
      SumPlus(models, UpTo(f, n - 1), At(f, n - 1), UpTo(f, n));
    }
  }

  function Models(leaves: seq<Leaf>): (m: seq<seq<Cluster>>)
    ensures |m| == |leaves|
  {
    seq(|leaves|, i requires 0 <= i < |leaves| => leaves[i].model)
  }

  const HITS: Leaf -> nat := (l: Leaf) => l.matched
  const MISSES: Leaf -> nat := (l: Leaf) => l.missed

  function All(f: Cluster -> nat): seq<Cluster> -> nat {
    (m: seq<Cluster>) => Sum(m, f)
  }

  /** What all ranks counted is what each counted of its own and what was carried to each. */
  lemma {:induction false} LeavesCounted(leaves: seq<Leaf>, f: Cluster -> nat, own: Leaf -> nat, carried: nat)
    requires forall i :: 0 <= i < |leaves| ==> Sum(leaves[i].model, f) == own(leaves[i]) + carried
    ensures Sum(Models(leaves), All(f)) == Sum(leaves, own) + |leaves| * carried
  {
    hide Sum;
    if |leaves| > 0 {
      var n := |leaves| - 1;
      LeavesCounted(leaves[..n], f, own, carried);
      assert Models(leaves) == Models(leaves[..n]) + [leaves[n].model];
      SumAppend(Models(leaves[..n]), leaves[n].model, All(f));
      assert leaves == leaves[..n] + [leaves[n]];
      SumAppend(leaves[..n], leaves[n], own);
      assert |leaves| * carried == n * carried + carried;
    } else {
      SumZero(leaves, own);
      SumZero(Models(leaves), All(f));
    }
  }

  lemma RootCarries(t: Sys)
    requires Inv(t)
    ensures Sum(t.root, MATCHED) == t.carried && Sum(t.root, MISSED) == 0
  {
  }

  /** A rank with the whole model counted its own examples and all that was carried. */
  lemma StoppedLeaf(t: Sys, r: nat)
    requires Inv(t) && r < |t.leaves| && !t.leaves[r].failed && |t.leaves[r].model| == |t.root|
    ensures Sum(t.leaves[r].model, MATCHED) == t.leaves[r].matched + t.carried
    ensures Sum(t.leaves[r].model, MISSED) == t.leaves[r].missed
  {
    hide Sum;
    hide LogOk;
    assert LeafOk(t, t.leaves[r]) && LeafLedger(t, t.leaves[r]);
    assert t.root[..|t.root|] == t.root;
  }

  lemma GatheredTotal(models: seq<seq<Cluster>>, merged: seq<Cluster>, f: Cluster -> nat)
    requires Counts(models, merged, f)
    ensures Sum(merged, f) == Sum(models, All(f))
  {
    hide Sum;
    GatherUpTo(models, merged, f, |merged|);
    assert merged[..|merged|] == merged;
    assert forall j :: 0 <= j < |models| ==> models[j][..|merged|] == models[j];
    SumEqual(models, UpTo(f, |merged|), All(f));
  }

  /** One counter, gathered from the root and all ranks. */
  lemma GatheredLedger(t: Sys, merged: seq<Cluster>, f: Cluster -> nat, own: Leaf -> nat, carried: nat)
    requires Counts([t.root] + Models(t.leaves), merged, f) && Sum(t.root, f) == carried
    requires forall r :: 0 <= r < |t.leaves| ==> Sum(t.leaves[r].model, f) == own(t.leaves[r]) + carried
    ensures Sum(merged, f) == Sum(t.leaves, own) + (|t.leaves| + 1) * carried
  {
    hide Sum;
    hide Counts;
    GatheredTotal([t.root] + Models(t.leaves), merged, f);
    SumConcat([t.root], Models(t.leaves), All(f));
    SumOne(t.root, All(f));
    LeavesCounted(t.leaves, f, own, carried);
    assert (|t.leaves| + 1) * carried == |t.leaves| * carried + carried;
  }

  /** Once every rank stopped, on acceptable input, all hold models of one size, the gathered hits are
      the examples that ranks identified as matches and, once for every rank, the matches that the
      clusters of novelty rounds carried, and the gathered misses are the other examples. */
  lemma HitsAndMisses(s: Sys, schedule: seq<Event>, merged: seq<Cluster>)
    requires Start(s) && Acceptable(s.inputs, 0)
    requires var t := Exec(s, schedule); forall r :: 0 <= r < |t.leaves| ==> t.leaves[r].stopped
    ensures var t := Exec(s, schedule);
      var models := [t.root] + Models(t.leaves);
      && SameSizes(models)
      && (IsGathered(models, merged) ==>
            && Sum(merged, MATCHED) == Sum(t.leaves, HITS) + (|t.leaves| + 1) * t.carried
            && Sum(merged, MISSED) == Sum(t.leaves, MISSES))
  {
    hide Exec;
    hide Inv;
    hide Sum;
    var t := Exec(s, schedule);
    EveryRun(s, schedule);
    forall r | 0 <= r < |t.leaves|
      ensures |t.leaves[r].model| == |t.root|
      ensures Sum(t.leaves[r].model, MATCHED) == t.leaves[r].matched + t.carried
      ensures Sum(t.leaves[r].model, MISSED) == t.leaves[r].missed
    {
      StopsWhole(s, schedule, r);
      StoppedLeaf(t, r);
    }
    RootCarries(t);
    if IsGathered([t.root] + Models(t.leaves), merged) {
      GatheredLedger(t, merged, MATCHED, HITS, t.carried);
      GatheredLedger(t, merged, MISSED, MISSES, 0);
    }
  }
}
