/** When a run of the pipeline can go on: classifiers wait for k clusters, and a rank's receiver
    ends it at a cluster whose id is out of place. */
module Progress {
  import opened Sums
  import opened Ranks
  import opened Labels
  import opened Pipeline
  import opened Delivery
  import opened Shutdown

  /** The input clusters that are added while no novelty comes between. */
  function Accepted(lines: seq<Line>, size: nat): (heads: seq<Head>) {
    if |lines| == 0 then []
    else
      match lines[0]
      case ClusterLine(id, tag) =>
        if size <= id then [Head(id, tag)] + Accepted(lines[1..], size + 1) else Accepted(lines[1..], size)
      case _ => Accepted(lines[1..], size)
  }

  /** The input brings k clusters, and no mark among the first k. */
  predicate Complete(cfg: Config, lines: seq<Line>) {
    var a := Accepted(lines, 0);
    |a| >= cfg.k && forall i :: 0 <= i < cfg.k ==> a[i].tag != EOS_LABEL
  }

  /** The root's first k clusters are those of the input, whatever novelties come later. */
  ghost predicate Follows(cfg: Config, lines: seq<Line>, s: Sys) {
    var a := Accepted(lines, 0);
    if |s.model| < cfg.k then s.model + Accepted(s.input, |s.model|) == a
    else |a| >= cfg.k && s.model[..cfg.k] == a[..cfg.k]
  }

  ghost predicate AllMarks(p: Packet) {
    forall i :: 0 <= i < |p| ==> IsMark(p[i])
  }

  /** No example was classified. */
  ghost predicate NoneClassed(s: Sys) {
    && AllMarks(s.current) && AllMarks(s.seen)
    && forall j :: 0 <= j < |s.threads| ==>
         && (Holds(s.threads[j].work) ==> s.threads[j].work.out == [])
         && (forall i :: 0 <= i < |s.threads[j].chan| ==> AllMarks(s.threads[j].chan[i]))
  }

  ghost predicate SomeComplete(cfg: Config, s: Sys) {
    exists r :: 1 <= r < cfg.mpiSize && r < |s.replicas| && |s.replicas[r].known| >= cfg.k
  }

  /** Examples are classified only by complete models, and only once they can leave the sampler. */
  ghost predicate Gated(cfg: Config, s: Sys) {
    NoneClassed(s) || (SomeComplete(cfg, s) && cfg.unset != EOS_LABEL && DataFlows(cfg, s))
  }

  lemma CompleteKept(cfg: Config, s: Sys, e: Event)
    requires Shape(cfg, s) && Enabled(cfg, s, e) && SomeComplete(cfg, s)
    ensures SomeComplete(cfg, Do(cfg, s, e))
  {
    var r :| 1 <= r < cfg.mpiSize && r < |s.replicas| && |s.replicas[r].known| >= cfg.k;
    var t := Do(cfg, s, e);
    assert |t.replicas[r].known| >= cfg.k;
  }

  lemma FlowsOn(cfg: Config, s: Sys, e: Event)
    requires Shape(cfg, s) && Enabled(cfg, s, e) && DataFlows(cfg, s)
    ensures DataFlows(cfg, Do(cfg, s, e))
  {
  }

  lemma FirstClassed(cfg: Config, s: Sys, e: Event)
    requires Inv(cfg, s) && Enabled(cfg, s, e) && NoneClassed(s) && e.Step?
    ensures Gated(cfg, Do(cfg, s, e))
  {
    hide SamplerOk;
    hide RanksOk;
    hide ModelsOk;
    hide DetectorOk;
    var th := s.threads[e.j];
    assert ThreadOk(cfg, DataFlows(cfg, s), th);
    MarkFirst(cfg, DataFlows(cfg, s), th.work.packet, th.work.pos);
    if !IsMark(th.work.packet[th.work.pos]) {
      assert |s.replicas[th.rank].known| >= cfg.k;
    }
  }

  lemma StepGated(cfg: Config, s: Sys, e: Event)
    requires Inv(cfg, s) && Enabled(cfg, s, e) && Gated(cfg, s)
    ensures Gated(cfg, Do(cfg, s, e))
  {
    hide SamplerOk;
    hide RanksOk;
    hide ModelsOk;
    hide ThreadsOk;
    hide DetectorOk;
    hide Finished;
    hide DataFlows;
    if !NoneClassed(s) {
      CompleteKept(cfg, s, e);
      FlowsOn(cfg, s, e);
    } else if e.Step? {
      FirstClassed(cfg, s, e);
    }
  }

  lemma KnowsPart(cfg: Config, s: Sys, r: nat)
    requires Inv(cfg, s) && 1 <= r < cfg.mpiSize
    ensures ReplicaOk(cfg, s.model, s.replicas[r])
  {
  }

  lemma RootComplete(cfg: Config, s: Sys)
    requires Inv(cfg, s) && SomeComplete(cfg, s)
    ensures |s.model| >= cfg.k && forall i :: 0 <= i < cfg.k ==> s.model[i].tag != EOS_LABEL
  {
    hide Inv;
    var r :| 1 <= r < cfg.mpiSize && r < |s.replicas| && |s.replicas[r].known| >= cfg.k;
    KnowsPart(cfg, s, r);
    assert forall i :: 0 <= i < cfg.k ==> s.replicas[r].known[i] in s.replicas[r].known;
  }

  lemma StepFollows(cfg: Config, lines: seq<Line>, s: Sys, e: Event)
    requires Inv(cfg, s) && Enabled(cfg, s, e) && Gated(cfg, s) && Follows(cfg, lines, s)
    ensures Follows(cfg, lines, Do(cfg, s, e))
  {
    hide SamplerOk;
    hide RanksOk;
    hide ThreadsOk;
    hide DetectorOk;
    hide ModelsOk;
    hide Finished;
    hide DataFlows;
    var t := Do(cfg, s, e);
    if e.Read? {
      var line := s.input[0];
      if line.ClusterLine? && |s.model| <= line.id && |s.model| < cfg.k {
        assert s.model + Accepted(s.input, |s.model|) == t.model + Accepted(t.input, |t.model|);
      }
    } else if e.DetItem? && e.found != [] {
      assert !IsMark(s.current[0]);
      RootComplete(cfg, s);
      assert t.model[..cfg.k] == s.model[..cfg.k];
    }
  }

  lemma {:induction false} RunFollows(cfg: Config, s: Sys, schedule: seq<Event>)
    requires Start(cfg, s)
    ensures var t := Exec(cfg, s, schedule); Gated(cfg, t) && Follows(cfg, s.input, t)
  {
    hide Do;
    hide Inv;
    if |schedule| > 0 {
      RunFollows(cfg, s, schedule[..|schedule| - 1]);
      var r, e := Exec(cfg, s, schedule[..|schedule| - 1]), schedule[|schedule| - 1];
      EveryRun(cfg, s, schedule[..|schedule| - 1]);
      if Enabled(cfg, r, e) {
        StepGated(cfg, r, e);
        StepFollows(cfg, s.input, r, e);
      }
    }
  }

  /** If some rank's model is complete, the input made it so. */
  lemma CompletedByInput(cfg: Config, lines: seq<Line>, s: Sys)
    requires Inv(cfg, s) && Follows(cfg, lines, s) && SomeComplete(cfg, s)
    ensures Complete(cfg, lines)
  {
    hide Inv;
    RootComplete(cfg, s);
    assert forall i :: 0 <= i < cfg.k ==> s.model[i] == s.model[..cfg.k][i];
  }

  /** No rank was ended by its receiver's assertion. */
  ghost predicate NoneDead(cfg: Config, s: Sys)
    requires Shape(cfg, s)
  {
    forall r :: 1 <= r < cfg.mpiSize ==> !s.replicas[r].dead
  }

  /** At the end of the input, a rank whose receiver can go no further, but was not ended, has a
      complete model, if the input is complete. */
  lemma ReceiversDone(cfg: Config, lines: seq<Line>, s: Sys, r: nat)
    requires Inv(cfg, s) && Follows(cfg, lines, s) && Complete(cfg, lines) && s.input == [] && 1 <= r < cfg.mpiSize
    requires !Enabled(cfg, s, Hear(r)) && !Enabled(cfg, s, Post(r)) && !s.replicas[r].dead
    ensures |s.replicas[r].known| >= cfg.k
  {
    hide SamplerOk;
    hide RanksOk;
    hide ModelsOk;
    hide ThreadsOk;
    hide DetectorOk;
    KnowsPart(cfg, s, r);
    assert |s.model| >= cfg.k;
    assert forall i :: 0 <= i < cfg.k ==> s.model[i] == s.model[..cfg.k][i] && s.model[i].tag != EOS_LABEL;
  }

  /** A waiting thread whose rank's model is complete has a token, or a post to come. */
  lemma WaiterServed(cfg: Config, s: Sys, j: nat)
    requires Inv(cfg, s) && j < |s.threads| && Alive(s, j) && s.threads[j].work.Waiting?
    requires |s.replicas[s.threads[j].rank].known| >= cfg.k
    ensures Enabled(cfg, s, Wake(j)) || Enabled(cfg, s, Post(s.threads[j].rank))
  {
    hide Sum;
    hide SamplerOk;
    hide RanksOk;
    hide ThreadsOk;
    hide DetectorOk;
    var r := s.threads[j].rank;
    assert TokensOk(cfg, s, r);
    var before, after := s.threads[..j], s.threads[j + 1..];
    assert s.threads == before + [s.threads[j]] + after;
    SumConcat(before + [s.threads[j]], after, Waits(r));
    SumAppend(before, s.threads[j], Waits(r));
  }

  /** Once all markers are out, the queue of a receiving thread holds a packet for it. */
  lemma MarkerWaits(cfg: Config, s: Sys, j: nat)
    requires Inv(cfg, s) && s.phase == Closing(cfg.mpiSize, 0)
    requires j < |s.threads| && s.threads[j].work.Receiving?
    ensures |s.inQ[s.threads[j].rank]| > 0
  {
    hide Sum;
    hide ModelsOk;
    hide ThreadsOk;
    hide DetectorOk;
    var r := s.threads[j].rank;
    assert RankOk(cfg, s, r);
    var before, after := s.threads[..j], s.threads[j + 1..];
    assert s.threads == before + [s.threads[j]] + after;
    SumConcat(before + [s.threads[j]], after, Took(r));
    SumConcat(before + [s.threads[j]], after, OnRank(r));
    SumAppend(before, s.threads[j], Took(r));
    SumAppend(before, s.threads[j], OnRank(r));
    SumAtMost(before, Took(r), OnRank(r));
    SumAtMost(after, Took(r), OnRank(r));
    assert !Holds(s.threads[j].work) && !s.threads[j].work.Ended?;
    assert Sum(s.threads, Took(r)) < Sum(s.threads, OnRank(r));
    if s.inQ[r] == [] {
      SumZero(s.inQ[r], ENDS);
    }
  }

  /** Examples can be classified in the end: they are taken for marks, there are none, or the input
      completes the model. */
  predicate Classifiable(cfg: Config, lines: seq<Line>) {
    cfg.unset == EOS_LABEL || Examples(lines) == 0 || Complete(cfg, lines)
  }

  /** A thread that holds a packet can go on, or its rank's receiver can. */
  lemma HolderMoves(cfg: Config, lines: seq<Line>, s: Sys, j: nat) returns (e: Event)
    requires Inv(cfg, s) && NoneDead(cfg, s) && Follows(cfg, lines, s) && Classifiable(cfg, lines) && s.input == []
    requires s.nextId > 0 ==> Examples(lines) > 0
    requires j < |s.threads| && Holds(s.threads[j].work)
    ensures Enabled(cfg, s, e) && (cfg.unset == EOS_LABEL ==> !e.Hear?)
  {
    hide SamplerOk;
    hide RanksOk;
    hide ModelsOk;
    hide DetectorOk;
    hide Complete;
    hide Follows;
    var w, r := s.threads[j].work, s.threads[j].rank;
    assert ThreadOk(cfg, DataFlows(cfg, s), s.threads[j]);
    MarkFirst(cfg, DataFlows(cfg, s), w.packet, w.pos);
    if IsMark(w.packet[w.pos]) {
      e := Step(j, EOS_LABEL);
    } else if Enabled(cfg, s, Hear(r)) {
      e := Hear(r);
    } else if Enabled(cfg, s, Post(r)) {
      e := Post(r);
    } else {
      assert Complete(cfg, lines);
      ReceiversDone(cfg, lines, s, r);
      if w.Working? {
        e := Step(j, UNKNOWN_LABEL);
      } else {
        WaiterServed(cfg, s, j);
        e := Wake(j);
      }
    }
  }

  /** No reachable state is stuck before the detector has left its loop, if no rank was ended and
      the examples can be classified at all. */
  lemma NeverStuck(cfg: Config, lines: seq<Line>, s: Sys) returns (e: Event)
    requires Inv(cfg, s) && NoneDead(cfg, s) && !Finished(s) && Follows(cfg, lines, s) && Classifiable(cfg, lines)
    requires s.nextId > 0 && s.input == [] ==> Examples(lines) > 0
    ensures Enabled(cfg, s, e) && (cfg.unset == EOS_LABEL ==> !e.Hear?)
  {
    hide Sum;
    hide RanksOk;
    hide ModelsOk;
    hide ThreadsOk;
    if s.phase.Streaming? {
      e := if |s.input| > 0 then Read else EndInput;
    } else if s.phase.d < cfg.mpiSize {
      e := SendEos;
    } else if |s.current| > 0 {
      e := DetItem([]);
    } else if j: nat :| j < |s.threads| && |s.threads[j].chan| > 0 {
      e := DetRecv(j);
    } else if j: nat :| j < |s.threads| && Holds(s.threads[j].work) {
      e := HolderMoves(cfg, lines, s, j);
    } else {
      FinishedIsGone(cfg, s);
      var j: nat :| j < |s.threads| && s.threads[j].work.Receiving?;
      MarkerWaits(cfg, s, j);
      e := Recv(j);
    }
  }

  /** In a run whose input does not complete the model, no example is ever seen. */
  lemma NothingSeen(cfg: Config, s: Sys, schedule: seq<Event>)
    requires Start(cfg, s) && !Classifiable(cfg, s.input)
    ensures !Finished(Exec(cfg, s, schedule))
  {
    hide Exec;
    hide Inv;
    hide Complete;
    hide Follows;
    var t := Exec(cfg, s, schedule);
    EveryRun(cfg, s, schedule);
    RunFollows(cfg, s, schedule);
    if Finished(t) {
      SafeShutdown(cfg, s, schedule);
      if SomeComplete(cfg, t) {
        CompletedByInput(cfg, s.input, t);
      }
      SumZero(t.seen, Is(0));
    }
  }

  /** Novelties may come before the next line: a rank's model may be complete, and examples may have
      left the sampler. */
  predicate Growable(cfg: Config, size: nat, examples: nat) {
    size >= cfg.k && examples >= cfg.packetSize && cfg.unset != EOS_LABEL
  }

  /** Some line adds a cluster whose id is out of place, if novelties may take the ids of marks. */
  predicate Overrun(lines: seq<Line>, size: nat) {
    |lines| > 0 &&
    match lines[0]
    case ClusterLine(id, tag) =>
      if id < size then Overrun(lines[1..], size)
      else if tag == EOS_LABEL then Overrun(lines[1..], id + 1)
      else id != size || Overrun(lines[1..], size + 1)
    case _ => Overrun(lines[1..], size)
  }

  /** Receivers may come to a cluster whose id is not the size of their model: some line adds a
      cluster that is out of place with no mark before it, or with marks only that are passed over
      as novelties took their ids. */
  predicate GapReachable(cfg: Config, lines: seq<Line>, size: nat, examples: nat) {
    |lines| > 0 &&
    match lines[0]
    case ClusterLine(id, tag) =>
      if id < size then GapReachable(cfg, lines[1..], size, examples)
      else if tag == EOS_LABEL then Growable(cfg, size, examples) && Overrun(lines[1..], id + 1)
      else id != size || GapReachable(cfg, lines[1..], size + 1, examples)
    case ExampleLine => GapReachable(cfg, lines[1..], size, examples + 1)
    case OtherLine => GapReachable(cfg, lines[1..], size, examples)
  }

  /** A larger model passes over more. */
  lemma {:induction false} OverrunLater(lines: seq<Line>, n: nat, m: nat)
    requires n <= m && Overrun(lines, m)
    ensures Overrun(lines, n)
  {
    match lines[0]
    case ClusterLine(id, tag) =>
      if tag == EOS_LABEL && n <= id {
        OverrunLater(lines[1..], id + 1, if id < m then m else id + 1);
      } else if id == n {
        OverrunLater(lines[1..], n + 1, if id < m then m else m + 1);
      } else if id < n {
        OverrunLater(lines[1..], n, m);
      }
    case _ => OverrunLater(lines[1..], n, m);
  }

  lemma {:induction false} GrowableOverruns(cfg: Config, lines: seq<Line>, n: nat, e: nat)
    requires Growable(cfg, n, e)
    ensures GapReachable(cfg, lines, n, e) <==> Overrun(lines, n)
  {
    if |lines| > 0 {
      match lines[0]
      case ClusterLine(id, tag) =>
        if id < n {
          GrowableOverruns(cfg, lines[1..], n, e);
        } else if tag != EOS_LABEL {
          GrowableOverruns(cfg, lines[1..], n + 1, e);
        }
      case ExampleLine => GrowableOverruns(cfg, lines[1..], n, e + 1);
      case OtherLine => GrowableOverruns(cfg, lines[1..], n, e);
    }
  }

  ghost predicate Unmarked(model: seq<Head>) {
    forall i :: 0 <= i < |model| ==> model[i].tag != EOS_LABEL
  }

  /** Up to the first mark, ids are in place. */
  ghost predicate InPlace(model: seq<Head>) {
    forall i :: 0 <= i < |model| && Unmarked(model[..i + 1]) ==> model[i].id == i
  }

  /** No receiver comes to a cluster out of place, now or later. */
  ghost predicate NoGap(cfg: Config, s: Sys) {
    InPlace(s.model) && (Unmarked(s.model) ==> !GapReachable(cfg, s.input, |s.model|, s.nextId))
  }

  lemma Grows(model: seq<Head>, head: Head)
    requires InPlace(model) && (Unmarked(model) && head.tag != EOS_LABEL ==> head.id == |model|)
    ensures InPlace(model + [head]) && (Unmarked(model + [head]) <==> Unmarked(model) && head.tag != EOS_LABEL)
  {
    var more := model + [head];
    assert more[..|more|] == more && more[|model|] == head;
    forall i | 0 <= i < |model| ensures more[..i + 1] == model[..i + 1] && more[i] == model[i] {}
  }

  lemma {:induction false} NoveltiesInPlace(model: seq<Head>, found: seq<nat>)
    requires InPlace(model)
    ensures InPlace(model + Joined(found, |model|)) && (Unmarked(model + Joined(found, |model|)) ==> Unmarked(model))
  {
    if |found| == 0 {
      assert model + Joined(found, |model|) == model;
    } else {
      var front := found[..|found| - 1];
      NoveltiesInPlace(model, front);
      var more := model + Joined(front, |model|);
      Grows(more, Head(|more|, found[|found| - 1]));
      assert model + Joined(found, |model|) == more + [Head(|more|, found[|found| - 1])];
    }
  }

  lemma StepNoGap(cfg: Config, s: Sys, e: Event)
    requires Inv(cfg, s) && Gated(cfg, s) && Enabled(cfg, s, e) && NoGap(cfg, s)
    ensures NoGap(cfg, Do(cfg, s, e))
  {
    hide RanksOk;
    hide ModelsOk;
    hide ThreadsOk;
    hide DetectorOk;
    hide Finished;
    hide InPlace;
    hide Unmarked;
    var t := Do(cfg, s, e);
    if e.Read? {
      var line := s.input[0];
      if line.ClusterLine? && |s.model| <= line.id {
        Grows(s.model, Head(line.id, line.tag));
      }
    } else if e.DetItem? && e.found != [] {
      NoveltiesInPlace(s.model, e.found);
      assert !IsMark(s.current[0]);
      RootComplete(cfg, s);
      if Unmarked(t.model) && s.input != [] {
        GrowableOverruns(cfg, s.input, |s.model|, s.nextId);
        GrowableOverruns(cfg, s.input, |t.model|, s.nextId);
        if Overrun(s.input, |t.model|) {
          OverrunLater(s.input, |s.model|, |t.model|);
        }
      }
    } else {
      assert t.model == s.model && t.input == s.input && t.nextId == s.nextId;
    }
  }

  lemma InPlaceLives(cfg: Config, s: Sys, r: nat)
    requires Inv(cfg, s) && InPlace(s.model) && 1 <= r < cfg.mpiSize
    ensures !s.replicas[r].dead
  {
    hide SamplerOk;
    hide RanksOk;
    hide ModelsOk;
    hide ThreadsOk;
    hide DetectorOk;
    KnowsPart(cfg, s, r);
    var rep := s.replicas[r];
    assert forall i :: 0 <= i < |rep.known| ==> s.model[i].tag == rep.known[i] && rep.known[i] in rep.known;
    var q := |rep.known|;
    if q < |s.model| && s.model[q].tag != EOS_LABEL {
      assert Unmarked(s.model[..q + 1]);
    }
  }

  lemma NoGapLives(cfg: Config, s: Sys, r: nat)
    requires Inv(cfg, s) && NoGap(cfg, s) && 1 <= r < cfg.mpiSize
    ensures !s.replicas[r].dead
  {
    InPlaceLives(cfg, s, r);
  }

  lemma NoGapAtStart(cfg: Config, s: Sys)
    requires Start(cfg, s) && !GapReachable(cfg, s.input, 0, 0)
    ensures NoGap(cfg, s)
  {
  }

  /** Where no gap is reachable, no rank is ever ended by its receiver. */
  lemma {:induction false} NobodyDies(cfg: Config, s: Sys, schedule: seq<Event>)
    requires Start(cfg, s) && !GapReachable(cfg, s.input, 0, 0)
    ensures NoGap(cfg, Exec(cfg, s, schedule)) && NoneDead(cfg, Exec(cfg, s, schedule))
  {
    hide Do;
    hide Inv;
    hide NoGap;
    if |schedule| == 0 {
      NoGapAtStart(cfg, s);
    } else {
      NobodyDies(cfg, s, schedule[..|schedule| - 1]);
      var r, e := Exec(cfg, s, schedule[..|schedule| - 1]), schedule[|schedule| - 1];
      EveryRun(cfg, s, schedule[..|schedule| - 1]);
      RunFollows(cfg, s, schedule[..|schedule| - 1]);
      if Enabled(cfg, r, e) {
        StepNoGap(cfg, r, e);
      }
    }
    EveryRun(cfg, s, schedule);
    forall r | 1 <= r < cfg.mpiSize ensures !Exec(cfg, s, schedule).replicas[r].dead {
      NoGapLives(cfg, Exec(cfg, s, schedule), r);
    }
  }
}
