/** The pipeline's runs end: every run can be carried on to one that can go no further. */
module Termination {
  import opened Sums
  import opened Ranks
  import opened Labels
  import opened Pipeline
  import opened Delivery
  import opened Shutdown

  const LENGTH: Packet -> nat := (p: Packet) => |p|

  const QUEUED: seq<Packet> -> nat := (q: seq<Packet>) => 4 * Sum(q, LENGTH)

  /** Steps a thread and the detector may still take for what the thread holds. */
  const BUDGET: Thread -> nat := (th: Thread) =>
    (if Holds(th.work) && th.work.pos <= |th.work.packet|
     then 3 * (|th.work.packet| - th.work.pos) + 2 * |th.work.out| else 0)
    + 2 * Sum(th.chan, LENGTH)

  /** A thread waits at most once, before its rank's model is complete. */
  function Credit(cfg: Config, replicas: seq<Replica>): Thread -> nat {
    (th: Thread) =>
      if th.work.Waiting? then 1
      else if th.rank < |replicas| && |replicas[th.rank].known| < cfg.k then 2
      else 0
  }

  function Posts(cfg: Config): Replica -> nat {
    (rep: Replica) => if |rep.known| < cfg.k then cfg.nClassifiers else rep.posts
  }

  function MarkersLeft(cfg: Config, phase: Phase): int {
    match phase
    case Streaming => cfg.nClassifiers * (cfg.mpiSize - 1)
    case Closing(d, i) => cfg.nClassifiers * (cfg.mpiSize - d) - i
  }

  /** A bound on the steps that are left, but for those of the receivers. */
  function StepsLeft(cfg: Config, s: Sys): int {
    5 * |s.input| + 4 * |s.buffer| + (if s.phase.Streaming? then 1 else 0) + 5 * MarkersLeft(cfg, s.phase)
    + Sum(s.inQ, QUEUED) + Sum(s.threads, BUDGET) + |s.current|
    + Sum(s.threads, Credit(cfg, s.replicas)) + Sum(s.replicas, Posts(cfg))
  }

  lemma MarkersLeftFalls(cfg: Config, s: Sys)
    requires Inv(cfg, s)
    ensures MarkersLeft(cfg, s.phase) >= 0
    ensures s.phase.Streaming? ==> MarkersLeft(cfg, Closing(1, 0)) == MarkersLeft(cfg, s.phase)
    ensures Enabled(cfg, s, SendEos) ==>
      MarkersLeft(cfg, Do(cfg, s, SendEos).phase) == MarkersLeft(cfg, s.phase) - 1 >= 0
  {
    hide RanksOk;
    hide ModelsOk;
    hide ThreadsOk;
    hide DetectorOk;
    var n := cfg.nClassifiers;
    if s.phase.Closing? && s.phase.d < cfg.mpiSize {
      var k := cfg.mpiSize - s.phase.d - 1;
      assert n * (k + 1) == n * k + n;
      assert n * k >= 0;
    }
  }

  lemma QueueGrows(s: Sys, d: nat, packet: Packet)
    requires d < |s.inQ|
    ensures Sum(s.inQ[d := s.inQ[d] + [packet]], QUEUED) == Sum(s.inQ, QUEUED) + 4 * |packet|
  {
    hide Sum;
    SumUpdate(s.inQ, d, s.inQ[d] + [packet], QUEUED);
    SumAppend(s.inQ[d], packet, LENGTH);
  }

  lemma ClassifyUsesOne(cfg: Config, data: bool, th: Thread, tag: nat)
    requires WorkOk(cfg, data, th.work) && Busy(th.work)
    ensures BUDGET(Classified(th, tag)) < BUDGET(th)
  {
    hide Sum;
    var Working(packet, pos, out) := th.work;
    SumAppend(th.chan, out + [Item(packet[pos].id, tag)], LENGTH);
  }

  lemma PacketsNotEmpty(cfg: Config, s: Sys, j: nat)
    requires Inv(cfg, s) && j < |s.threads|
    ensures WorkOk(cfg, DataFlows(cfg, s), s.threads[j].work)
    ensures |s.threads[j].chan| > 0 ==> |s.threads[j].chan[0]| > 0
    ensures var q := s.inQ[s.threads[j].rank]; |q| > 0 ==> |q[0]| > 0
  {
    hide Sum;
    assert ThreadOk(cfg, DataFlows(cfg, s), s.threads[j]);
    assert RankOk(cfg, s, s.threads[j].rank);
    if |s.threads[j].chan| > 0 {
      assert SentOk(s.threads[j].chan[0], s.threads[j].work.Ended? && 0 == |s.threads[j].chan| - 1);
    }
  }

  /** A step of the sampler uses up some of the bound. */
  lemma SamplerUsesSome(cfg: Config, s: Sys, e: Event)
    requires Inv(cfg, s) && Enabled(cfg, s, e) && (e.Read? || e.EndInput? || e.SendEos?)
    ensures StepsLeft(cfg, Do(cfg, s, e)) < StepsLeft(cfg, s)
  {
    hide Sum;
    hide ThreadsOk;
    hide RanksOk;
    hide ModelsOk;
    hide DetectorOk;
    hide MarkersLeft;
    MarkersLeftFalls(cfg, s);
    if e.Read? {
      QueueGrows(s, NextDest(s.dest, cfg.mpiSize), s.buffer + [Item(s.nextId, cfg.unset)]);
    } else if e.EndInput? {
      QueueGrows(s, NextDest(s.dest, cfg.mpiSize), s.buffer);
    } else {
      QueueGrows(s, s.phase.d, [Marker(s)]);
    }
  }

  lemma WokenIsComplete(cfg: Config, s: Sys, r: nat)
    requires Inv(cfg, s) && 1 <= r < cfg.mpiSize && (s.replicas[r].tokens > 0 || s.replicas[r].posts > 0)
    ensures |s.replicas[r].known| >= cfg.k
  {
    assert ReplicaOk(cfg, s.model, s.replicas[r]);
  }

  lemma WakeUsesOne(cfg: Config, s: Sys, j: nat)
    requires Inv(cfg, s) && Enabled(cfg, s, Wake(j))
    ensures StepsLeft(cfg, Do(cfg, s, Wake(j))) < StepsLeft(cfg, s)
  {
    hide Sum;
    hide MarkersLeft;
    hide SamplerOk;
    hide RanksOk;
    hide ModelsOk;
    hide ThreadsOk;
    hide DetectorOk;
    var t, k := Do(cfg, s, Wake(j)), s.threads[j].rank;
    SumUpdate(s.threads, j, t.threads[j], BUDGET);
    SumUpdate(s.threads, j, t.threads[j], Credit(cfg, s.replicas));
    SumUpdate(s.replicas, k, t.replicas[k], Posts(cfg));
    SumEqual(t.threads, Credit(cfg, s.replicas), Credit(cfg, t.replicas));
    WokenIsComplete(cfg, s, k);
  }

  /** A step of a classifier uses up some of the bound. */
  lemma ThreadUsesSome(cfg: Config, s: Sys, e: Event)
    requires Inv(cfg, s) && Enabled(cfg, s, e) && (e.Recv? || e.Block? || e.Step?)
    ensures StepsLeft(cfg, Do(cfg, s, e)) < StepsLeft(cfg, s)
  {
    hide Sum;
    hide MarkersLeft;
    hide SamplerOk;
    hide RanksOk;
    hide ModelsOk;
    hide ThreadsOk;
    hide DetectorOk;
    var j, t := e.j, Do(cfg, s, e);
    PacketsNotEmpty(cfg, s, j);
    SumUpdate(s.threads, j, t.threads[j], BUDGET);
    SumUpdate(s.threads, j, t.threads[j], Credit(cfg, s.replicas));
    match e
    case Recv(_) =>
      var k := s.threads[j].rank;
      SumHead(s.inQ[k], LENGTH);
      SumUpdate(s.inQ, k, s.inQ[k][1..], QUEUED);
    case Block(_) =>
    case Step(_, tag) =>
      ClassifyUsesOne(cfg, DataFlows(cfg, s), s.threads[j], tag);
  }

  /** A broadcast heard does not raise the bound. */
  lemma HearUsesNone(cfg: Config, s: Sys, r: nat)
    requires Inv(cfg, s) && Enabled(cfg, s, Hear(r))
    ensures StepsLeft(cfg, Do(cfg, s, Hear(r))) <= StepsLeft(cfg, s)
  {
    hide Sum;
    hide MarkersLeft;
    hide SamplerOk;
    hide RanksOk;
    hide ModelsOk;
    hide ThreadsOk;
    hide DetectorOk;
    var t := Do(cfg, s, Hear(r));
    SumUpdate(s.replicas, r, t.replicas[r], Posts(cfg));
    SumAtMost(s.threads, Credit(cfg, t.replicas), Credit(cfg, s.replicas));
  }

  /** Every step uses up some of the bound, except a receiver's, which does not raise it. */
  lemma StepsRunOut(cfg: Config, s: Sys, e: Event)
    requires Inv(cfg, s) && Enabled(cfg, s, e)
    ensures StepsLeft(cfg, Do(cfg, s, e)) + (if e.Hear? then 0 else 1) <= StepsLeft(cfg, s)
  {
    hide Sum;
    hide MarkersLeft;
    hide SamplerOk;
    hide RanksOk;
    hide ModelsOk;
    hide ThreadsOk;
    hide DetectorOk;
    match e
    case Read => SamplerUsesSome(cfg, s, e);
    case EndInput => SamplerUsesSome(cfg, s, e);
    case SendEos => SamplerUsesSome(cfg, s, e);
    case DetRecv(j) =>
      var t := Do(cfg, s, e);
      PacketsNotEmpty(cfg, s, j);
      SumHead(s.threads[j].chan, LENGTH);
      SumUpdate(s.threads, j, t.threads[j], BUDGET);
      SumUpdate(s.threads, j, t.threads[j], Credit(cfg, s.replicas));
    case DetItem(found) =>
    case Wake(j) => WakeUsesOne(cfg, s, j);
    case Hear(r) => HearUsesNone(cfg, s, r);
    case Post(r) =>
      var t := Do(cfg, s, e);
      SumUpdate(s.replicas, r, t.replicas[r], Posts(cfg));
      SumEqual(s.threads, Credit(cfg, s.replicas), Credit(cfg, t.replicas));
      WokenIsComplete(cfg, s, r);
    case _ => ThreadUsesSome(cfg, s, e);
  }

  /** The steps of a schedule that were possible, but for those of the receivers. */
  ghost function Taken(cfg: Config, s: Sys, schedule: seq<Event>): nat
    requires Shape(cfg, s)
  {
    if |schedule| == 0 then 0
    else
      var n := |schedule| - 1;
      Taken(cfg, s, schedule[..n])
      + (if Enabled(cfg, Exec(cfg, s, schedule[..n]), schedule[n]) && !schedule[n].Hear? then 1 else 0)
  }

  lemma {:induction false} StepsUsed(cfg: Config, s: Sys, schedule: seq<Event>)
    requires Shape(cfg, s) && Start(cfg, s)
    ensures Taken(cfg, s, schedule) + StepsLeft(cfg, Exec(cfg, s, schedule)) <= StepsLeft(cfg, s)
  {
    hide Do;
    hide Inv;
    hide Start;
    hide StepsLeft;
    if |schedule| > 0 {
      StepsUsed(cfg, s, schedule[..|schedule| - 1]);
      var r, e := Exec(cfg, s, schedule[..|schedule| - 1]), schedule[|schedule| - 1];
      EveryRun(cfg, s, schedule[..|schedule| - 1]);
      if Enabled(cfg, r, e) {
        StepsRunOut(cfg, r, e);
      }
    }
  }

  lemma {:induction false} SumConstant<T>(cs: seq<T>, f: T -> nat, c: nat)
    requires forall i :: 0 <= i < |cs| ==> f(cs[i]) == c
    ensures Sum(cs, f) == c * |cs|
  {
    if |cs| > 0 {
      SumConstant(cs[..|cs| - 1], f, c);
    }
  }

  /** What a run may take at most: five steps for each line and each marker, two waits and a share
      of the posts for each thread. */
  function Bound(cfg: Config, lines: nat): int {
    5 * (lines + cfg.nClassifiers * (cfg.mpiSize - 1)) + 1
    + 2 * (cfg.nClassifiers * (cfg.mpiSize - 1)) + cfg.nClassifiers * cfg.mpiSize
  }

  lemma StepsAtStart(cfg: Config, s: Sys)
    requires Start(cfg, s)
    ensures StepsLeft(cfg, s) == Bound(cfg, |s.input|)
  {
    SumZero(s.inQ, QUEUED);
    SumZero(s.threads, BUDGET);
    SumConstant(s.threads, Credit(cfg, s.replicas), 2);
    SumConstant(s.replicas, Posts(cfg), cfg.nClassifiers);
  }

  lemma StepsNotNegative(cfg: Config, s: Sys)
    requires Inv(cfg, s)
    ensures StepsLeft(cfg, s) >= 0
  {
    hide Sum;
    hide MarkersLeft;
    hide SamplerOk;
    hide RanksOk;
    hide ModelsOk;
    hide ThreadsOk;
    hide DetectorOk;
    MarkersLeftFalls(cfg, s);
  }

  /** Every run ends: whatever novelties come, the sampler, the classifiers, the posts and the
      detector take no more steps than the bound, and no receiver hears more than was broadcast. */
  lemma EveryRunEnds(cfg: Config, s: Sys, schedule: seq<Event>)
    requires Start(cfg, s)
    ensures Taken(cfg, s, schedule) <= Bound(cfg, |s.input|)
    ensures var t := Exec(cfg, s, schedule);
      forall r :: 1 <= r < cfg.mpiSize ==> t.replicas[r].heard <= |t.model|
  {
    hide Exec;
    hide Taken;
    hide StepsLeft;
    var t := Exec(cfg, s, schedule);
    StepsAtStart(cfg, s);
    StepsUsed(cfg, s, schedule);
    EveryRun(cfg, s, schedule);
    StepsNotNegative(cfg, t);
    forall r | 1 <= r < cfg.mpiSize ensures t.replicas[r].heard <= |t.model| {
      assert ReplicaOk(cfg, t.model, t.replicas[r]);
    }
  }

  function Unheard(size: nat): Replica -> nat {
    (rep: Replica) => if rep.heard <= size then size - rep.heard else 0
  }

  function HearLeft(s: Sys): nat {
    Sum(s.replicas, Unheard(|s.model|))
  }

  lemma HearRunsOut(cfg: Config, s: Sys, r: nat)
    requires Inv(cfg, s) && Enabled(cfg, s, Hear(r))
    ensures HearLeft(Do(cfg, s, Hear(r))) < HearLeft(s)
  {
    var t := Do(cfg, s, Hear(r));
    SumUpdate(s.replicas, r, t.replicas[r], Unheard(|s.model|));
  }

  lemma ExecSnoc(cfg: Config, s: Sys, schedule: seq<Event>, e: Event)
    requires Shape(cfg, s)
    ensures Exec(cfg, s, schedule + [e]) == Next(cfg, Exec(cfg, s, schedule), e)
  {
    assert (schedule + [e])[..|schedule|] == schedule;
  }

  ghost predicate Stuck(cfg: Config, s: Sys)
    requires Shape(cfg, s)
  {
    forall e :: !Enabled(cfg, s, e)
  }

  /** Every run can be carried on to one that can go no further. */
  lemma {:induction false} Maximal(cfg: Config, s: Sys, schedule: seq<Event>) returns (m: seq<Event>)
    requires Start(cfg, s)
    ensures schedule <= m && Stuck(cfg, Exec(cfg, s, m))
    decreases StepsLeft(cfg, Exec(cfg, s, schedule)), HearLeft(Exec(cfg, s, schedule))
  {
    hide Exec;
    hide Do;
    hide Enabled;
    hide Inv;
    hide StepsLeft;
    hide HearLeft;
    var t := Exec(cfg, s, schedule);
    EveryRun(cfg, s, schedule);
    StepsNotNegative(cfg, t);
    if e :| Enabled(cfg, t, e) {
      ExecSnoc(cfg, s, schedule, e);
      StepsRunOut(cfg, t, e);
      if e.Hear? {
        HearRunsOut(cfg, t, e.r);
      }
      m := Maximal(cfg, s, schedule + [e]);
    } else {
      m := schedule;
    }
  }
}
