/** What every step of the pipeline keeps, and what follows for every run: what holds in every
    reachable state, what is conserved, and when leaving the detector's loop is safe. */
module Delivery {
  import opened Sums
  import opened Ranks
  import opened Labels
  import opened Pipeline

  /** Markers stand alone in their packet; examples carry the sampler's unset label. */
  predicate MarkPacket(p: Packet) {
    |p| == 1 && IsMark(p[0])
  }

  predicate DataPacket(cfg: Config, p: Packet) {
    |p| > 0 && forall i :: 0 <= i < |p| ==> p[i].tag == cfg.unset
  }

  /** Whether examples may have left the sampler: it read a whole packet of them, or all there are. */
  predicate DataFlows(cfg: Config, s: Sys) {
    s.nextId > 0 && (s.input == [] || s.nextId >= cfg.packetSize)
  }

  predicate PacketOk(cfg: Config, data: bool, p: Packet) {
    MarkPacket(p) || (data && DataPacket(cfg, p))
  }

  /** The packet ends the thread that takes it. */
  const ENDS: Packet -> nat := (p: Packet) => if |p| > 0 && IsMark(p[0]) then 1 else 0

  predicate Holds(w: Work) {
    w.Working? || w.Waiting?
  }

  ghost predicate WorkOk(cfg: Config, data: bool, w: Work) {
    Holds(w) ==>
      && PacketOk(cfg, data, w.packet) && w.pos < |w.packet| && |w.out| == w.pos
      && (forall i :: 0 <= i < w.pos ==> w.out[i].id == w.packet[i].id && !IsMark(w.out[i]))
      && (w.pos > 0 || w.Waiting? ==> ENDS(w.packet) == 0)
  }

  /** A mark is last in the packet of a thread that ends, and in no other. */
  ghost predicate SentOk(p: Packet, last: bool) {
    |p| > 0 && forall i :: 0 <= i < |p| ==> (IsMark(p[i]) <==> last && i == |p| - 1)
  }

  /** A thread's channel ends in its one mark exactly if it ended and the mark is still there. */
  ghost predicate ChanOk(th: Thread) {
    forall i :: 0 <= i < |th.chan| ==> SentOk(th.chan[i], th.work.Ended? && i == |th.chan| - 1)
  }

  ghost predicate ThreadOk(cfg: Config, data: bool, th: Thread) {
    WorkOk(cfg, data, th.work) && ChanOk(th)
  }

  /** The threads of rank r that took a packet that ends them. */
  function Took(r: nat): Thread -> nat {
    (th: Thread) => if th.rank == r && (th.work.Ended? || (Holds(th.work) && ENDS(th.work.packet) == 1)) then 1 else 0
  }

  /** The threads of rank r that wait for its model. */
  function Waits(r: nat): Thread -> nat {
    (th: Thread) => if th.rank == r && th.work.Waiting? then 1 else 0
  }

  /** The thread ended and the detector received its mark. */
  const GONE: Thread -> nat := (th: Thread) => if th.work.Ended? && |th.chan| == 0 then 1 else 0

  function SentMarkers(cfg: Config, phase: Phase, r: nat): nat {
    match phase
    case Streaming => 0
    case Closing(d, i) => if r < d then cfg.nClassifiers else if r == d then i else 0
  }

  ghost predicate ClosingOk(cfg: Config, phase: Phase) {
    phase.Closing? ==>
      1 <= phase.d <= cfg.mpiSize && phase.i < cfg.nClassifiers && (phase.d == cfg.mpiSize ==> phase.i == 0)
  }

  /** The examples read are in the sampler's buffer, or some packet was dispatched. */
  ghost predicate SamplerOk(cfg: Config, s: Sys) {
    && |s.buffer| < cfg.packetSize && |s.buffer| <= s.nextId
    && (|s.buffer| > 0 ==> s.nextId > 0 && DataPacket(cfg, s.buffer))
    && ClosingOk(cfg, s.phase) && (s.phase.Closing? ==> s.buffer == [] && s.input == [])
    && (s.nextId > |s.buffer| ==> exists r :: 1 <= r < |s.itemsWhere| && s.itemsWhere[r] > 0)
    && (s.nextId == 0 ==> forall r :: 0 <= r < |s.itemsWhere| ==> s.itemsWhere[r] == 0)
  }

  /** Packets that end a thread come after all that do not. */
  ghost predicate QueueOk(cfg: Config, data: bool, q: seq<Packet>) {
    && (forall i :: 0 <= i < |q| ==> PacketOk(cfg, data, q[i]))
    && (forall i, k :: 0 <= i < k < |q| && ENDS(q[i]) == 1 ==> ENDS(q[k]) == 1)
  }

  /** The ending packets issued to a rank are in its queue or were taken. */
  ghost predicate RankOk(cfg: Config, s: Sys, r: nat)
    requires Shape(cfg, s) && 1 <= r < cfg.mpiSize
  {
    && QueueOk(cfg, DataFlows(cfg, s), s.inQ[r])
    && Sum(s.inQ[r], ENDS) + Sum(s.threads, Took(r))
       == SentMarkers(cfg, s.phase, r) + (if cfg.unset == EOS_LABEL then s.itemsWhere[r] else 0)
    && (Sum(s.threads, Took(r)) > 0 ==> forall i :: 0 <= i < |s.inQ[r]| ==> ENDS(s.inQ[r][i]) == 1)
    && Sum(s.threads, OnRank(r)) == cfg.nClassifiers
  }

  /** A rank knows the start of the root's model, up to the first mark or the first id that is out
      of place, and no mark. */
  ghost predicate ReplicaOk(cfg: Config, model: seq<Head>, rep: Replica) {
    && |rep.known| <= |model| && EOS_LABEL !in rep.known
    && (forall i :: 0 <= i < |rep.known| ==> model[i] == Head(i, rep.known[i]))
    && rep.heard == |rep.known| + (if rep.listening then 0 else 1) && rep.heard <= |model|
    && (rep.dead ==> !rep.listening && model[|rep.known|].tag != EOS_LABEL && model[|rep.known|].id != |rep.known|)
    && (!rep.listening && !rep.dead ==> model[|rep.known|].tag == EOS_LABEL)
    && (|rep.known| < cfg.k ==> rep.posts == rep.tokens == 0) && rep.posts <= cfg.nClassifiers
  }

  /** Once the model is complete, whoever waits has a token or a post to come. */
  ghost predicate TokensOk(cfg: Config, s: Sys, r: nat)
    requires Shape(cfg, s) && r < cfg.mpiSize
  {
    |s.replicas[r].known| >= cfg.k ==> Sum(s.threads, Waits(r)) <= s.replicas[r].tokens + s.replicas[r].posts
  }

  ghost predicate DetectorOk(s: Sys) {
    && (forall i :: 0 <= i < |s.current| - 1 ==> !IsMark(s.current[i]))
    && (|s.current| > 0 && !IsMark(s.current[|s.current| - 1]) ==> s.from < |s.threads| && GONE(s.threads[s.from]) == 0)
    && Sum(s.seen, EOS) + (if |s.current| > 0 && IsMark(s.current[|s.current| - 1]) then 1 else 0)
       == Sum(s.threads, GONE)
  }

  ghost predicate ThreadsOk(cfg: Config, s: Sys) {
    forall j :: 0 <= j < |s.threads| ==> ThreadOk(cfg, DataFlows(cfg, s), s.threads[j])
  }

  ghost predicate RanksOk(cfg: Config, s: Sys)
    requires Shape(cfg, s)
  {
    s.inQ[0] == [] && forall r :: 1 <= r < cfg.mpiSize ==> RankOk(cfg, s, r)
  }

  ghost predicate ModelsOk(cfg: Config, s: Sys)
    requires Shape(cfg, s)
  {
    forall r :: 1 <= r < cfg.mpiSize ==> ReplicaOk(cfg, s.model, s.replicas[r]) && TokensOk(cfg, s, r)
  }

  ghost predicate Inv(cfg: Config, s: Sys) {
    && Shape(cfg, s) && SamplerOk(cfg, s) && ThreadsOk(cfg, s) && RanksOk(cfg, s) && ModelsOk(cfg, s) && DetectorOk(s)
  }

  lemma {:induction false} NoneEnd(q: seq<Packet>)
    requires Sum(q, ENDS) == 0
    ensures forall i :: 0 <= i < |q| ==> ENDS(q[i]) == 0
  {
    if |q| > 0 {
      NoneEnd(q[..|q| - 1]);
      assert forall i :: 0 <= i < |q| - 1 ==> q[i] == q[..|q| - 1][i];
    }
  }

  /** Replacing one thread moves each count by what that thread contributes. */
  lemma ReplaceThread(s: Sys, j: nat, th: Thread)
    requires j < |s.threads| && th.rank == s.threads[j].rank
    ensures forall r ::
      Sum(s.threads[j := th], Took(r)) + Took(r)(s.threads[j]) == Sum(s.threads, Took(r)) + Took(r)(th)
    ensures forall r ::
      Sum(s.threads[j := th], Waits(r)) + Waits(r)(s.threads[j]) == Sum(s.threads, Waits(r)) + Waits(r)(th)
    ensures forall r :: Sum(s.threads[j := th], OnRank(r)) == Sum(s.threads, OnRank(r))
    ensures Sum(s.threads[j := th], GONE) + GONE(s.threads[j]) == Sum(s.threads, GONE) + GONE(th)
  {
    hide Sum;
    forall r: nat
      ensures Sum(s.threads[j := th], Took(r)) + Took(r)(s.threads[j]) == Sum(s.threads, Took(r)) + Took(r)(th)
      ensures Sum(s.threads[j := th], Waits(r)) + Waits(r)(s.threads[j]) == Sum(s.threads, Waits(r)) + Waits(r)(th)
      ensures Sum(s.threads[j := th], OnRank(r)) == Sum(s.threads, OnRank(r))
    {
      SumUpdate(s.threads, j, th, Took(r));
      SumUpdate(s.threads, j, th, Waits(r));
      SumUpdate(s.threads, j, th, OnRank(r));
    }
    SumUpdate(s.threads, j, th, GONE);
  }

  /** A data packet joins the queue of a rank. */
  lemma DispatchRanks(cfg: Config, s: Sys, packet: Packet)
    requires Shape(cfg, s) && RanksOk(cfg, s) && s.phase.Streaming? && DataFlows(cfg, s) && DataPacket(cfg, packet)
    ensures RanksOk(cfg, Dispatched(cfg, s, packet))
  {
    hide Sum;
    var t := Dispatched(cfg, s, packet);
    var d := NextDest(s.dest, cfg.mpiSize);
    forall r | 1 <= r < cfg.mpiSize ensures RankOk(cfg, t, r) {
      assert RankOk(cfg, s, r);
      if r == d {
        SumAppend(s.inQ[r], packet, ENDS);
        if cfg.unset != EOS_LABEL {
          NoneEnd(s.inQ[r]);
        }
      }
    }
  }

  /** The example's number is taken: queues and threads stay as good as they were. */
  lemma NumberedOk(cfg: Config, s: Sys, t: Sys)
    requires Inv(cfg, s) && s.phase.Streaming?
    requires t == s.(input := t.input, nextId := t.nextId, issued := t.issued, model := t.model) && t.nextId >= s.nextId
    requires s.input == [] ==> t.input == []
    requires s.model <= t.model
    ensures RanksOk(cfg, t) && ThreadsOk(cfg, t) && ModelsOk(cfg, t) && DetectorOk(t)
  {
    hide Sum;
    hide ChanOk;
    forall r | 1 <= r < cfg.mpiSize ensures RankOk(cfg, t, r) {
      assert RankOk(cfg, s, r);
    }
    forall j | 0 <= j < |t.threads| ensures ThreadOk(cfg, DataFlows(cfg, t), t.threads[j]) {
      assert ThreadOk(cfg, DataFlows(cfg, s), s.threads[j]);
    }
    forall r | 1 <= r < cfg.mpiSize ensures ReplicaOk(cfg, t.model, t.replicas[r]) && TokensOk(cfg, t, r) {
      assert ReplicaOk(cfg, s.model, s.replicas[r]) && TokensOk(cfg, s, r);
    }
  }

  lemma DispatchOk(cfg: Config, s: Sys, packet: Packet)
    requires Shape(cfg, s) && RanksOk(cfg, s) && ThreadsOk(cfg, s) && ModelsOk(cfg, s) && DetectorOk(s)
    requires s.phase.Streaming? && DataFlows(cfg, s) && DataPacket(cfg, packet)
    ensures Inv(cfg, Dispatched(cfg, s, packet))
  {
    hide Sum;
    hide RankOk;
    hide ReplicaOk;
    hide ThreadOk;
    DispatchRanks(cfg, s, packet);
    var t := Dispatched(cfg, s, packet);
    assert t.itemsWhere[t.dest] > 0;
    forall r | 1 <= r < cfg.mpiSize ensures TokensOk(cfg, t, r) {
      assert TokensOk(cfg, s, r);
    }
  }

  lemma SameRank(cfg: Config, s: Sys, t: Sys, r: nat)
    requires Shape(cfg, s) && Shape(cfg, t) && 1 <= r < cfg.mpiSize && RankOk(cfg, s, r)
    requires s.inQ[r] == t.inQ[r] && s.threads == t.threads && s.itemsWhere[r] == t.itemsWhere[r]
    requires DataFlows(cfg, s) == DataFlows(cfg, t) && SentMarkers(cfg, s.phase, r) == SentMarkers(cfg, t.phase, r)
    ensures RankOk(cfg, t, r)
  {
  }

  lemma SameDetector(s: Sys, t: Sys)
    requires DetectorOk(s) && s.current == t.current && s.seen == t.seen && s.from == t.from && s.threads == t.threads
    ensures DetectorOk(t)
  {
  }

  lemma SampleOk(cfg: Config, s: Sys)
    requires Inv(cfg, s) && s.phase.Streaming?
    ensures Inv(cfg, Sampled(cfg, s))
  {
    hide Sum;
    hide RankOk;
    hide ReplicaOk;
    hide ThreadOk;
    hide DetectorOk;
    var it := Item(s.nextId, cfg.unset);
    var t := s.(nextId := s.nextId + 1, issued := s.issued + [it]);
    NumberedOk(cfg, s, t);
    var u := t.(buffer := t.buffer + [it]);
    assert RanksOk(cfg, u) by {
      forall r | 1 <= r < cfg.mpiSize ensures RankOk(cfg, u, r) { SameRank(cfg, t, u, r); }
    }
    assert ModelsOk(cfg, u) by {
      forall r | 1 <= r < cfg.mpiSize ensures ReplicaOk(cfg, u.model, u.replicas[r]) && TokensOk(cfg, u, r) {
        assert TokensOk(cfg, t, r);
      }
    }
    assert DetectorOk(u) by { SameDetector(t, u); }
    if |u.buffer| >= cfg.packetSize {
      DispatchOk(cfg, u, u.buffer);
    }
  }

  lemma ReadOk(cfg: Config, s: Sys)
    requires Inv(cfg, s) && Enabled(cfg, s, Read)
    ensures Inv(cfg, Do(cfg, s, Read))
  {
    hide RanksOk;
    hide ModelsOk;
    hide ThreadsOk;
    hide DetectorOk;
    var t := s.(input := s.input[1..]);
    NumberedOk(cfg, s, t);
    match s.input[0]
    case ClusterLine(id, tag) =>
      if |s.model| <= id {
        NumberedOk(cfg, s, t.(model := s.model + [Head(id, tag)]));
      }
    case ExampleLine => SampleOk(cfg, t);
    case OtherLine =>
  }

  lemma EndInputOk(cfg: Config, s: Sys)
    requires Inv(cfg, s) && Enabled(cfg, s, EndInput)
    ensures Inv(cfg, Do(cfg, s, EndInput))
  {
    hide Sum;
    hide RankOk;
    hide ReplicaOk;
    hide ThreadOk;
    hide DetectorOk;
    var t := if |s.buffer| > 0 then Dispatched(cfg, s, s.buffer) else s;
    if |s.buffer| > 0 {
      DispatchOk(cfg, s, s.buffer);
    }
    var u := t.(phase := Closing(1, 0));
    forall r | 1 <= r < cfg.mpiSize ensures RankOk(cfg, u, r) { SameRank(cfg, t, u, r); }
    forall r | 1 <= r < cfg.mpiSize ensures TokensOk(cfg, u, r) {
      assert TokensOk(cfg, t, r);
    }
    SameDetector(t, u);
  }

  lemma SendEosOk(cfg: Config, s: Sys)
    requires Inv(cfg, s) && Enabled(cfg, s, SendEos)
    ensures Inv(cfg, Do(cfg, s, SendEos))
  {
    hide Sum;
    hide ReplicaOk;
    hide ThreadOk;
    hide DetectorOk;
    var t := Do(cfg, s, SendEos);
    forall r | 1 <= r < cfg.mpiSize ensures RankOk(cfg, t, r) {
      assert RankOk(cfg, s, r);
      if r == s.phase.d {
        SumAppend(s.inQ[r], [Marker(s)], ENDS);
      }
    }
    forall r | 1 <= r < cfg.mpiSize ensures TokensOk(cfg, t, r) {
      assert TokensOk(cfg, s, r);
    }
    SameDetector(s, t);
  }

  /** A thread changes and keeps its rank, and what the rank's counts see of it. */
  lemma ThreadStep(cfg: Config, s: Sys, j: nat, th: Thread)
    requires Inv(cfg, s) && j < |s.threads| && th.rank == s.threads[j].rank && ThreadOk(cfg, DataFlows(cfg, s), th)
    requires Took(th.rank)(th) == Took(th.rank)(s.threads[j])
    requires Waits(th.rank)(th) <= Waits(th.rank)(s.threads[j]) || |s.replicas[th.rank].known| < cfg.k
    ensures var t := s.(threads := s.threads[j := th]);
      Shape(cfg, t) && SamplerOk(cfg, t) && ThreadsOk(cfg, t) && RanksOk(cfg, t) && ModelsOk(cfg, t)
  {
    hide Sum;
    hide QueueOk;
    hide ReplicaOk;
    hide ThreadOk;
    hide DetectorOk;
    var t := s.(threads := s.threads[j := th]);
    ReplaceThread(s, j, th);
    forall r | 1 <= r < cfg.mpiSize ensures RankOk(cfg, t, r) {
      assert RankOk(cfg, s, r);
    }
    forall r | 1 <= r < cfg.mpiSize ensures TokensOk(cfg, t, r) {
      assert TokensOk(cfg, s, r);
    }
  }

  lemma RecvOk(cfg: Config, s: Sys, j: nat)
    requires Inv(cfg, s) && Enabled(cfg, s, Recv(j))
    ensures Inv(cfg, Do(cfg, s, Recv(j)))
  {
    hide Sum;
    hide ReplicaOk;
    var t := Do(cfg, s, Recv(j));
    var k := s.threads[j].rank;
    assert RankOk(cfg, s, k);
    ReplaceThread(s, j, t.threads[j]);
    SumHead(s.inQ[k], ENDS);
    assert ThreadOk(cfg, DataFlows(cfg, s), s.threads[j]);
    forall r | 1 <= r < cfg.mpiSize ensures RankOk(cfg, t, r) && TokensOk(cfg, t, r) {
      assert RankOk(cfg, s, r) && TokensOk(cfg, s, r);
    }
  }

  lemma BlockOk(cfg: Config, s: Sys, j: nat)
    requires Inv(cfg, s) && Enabled(cfg, s, Block(j))
    ensures Inv(cfg, Do(cfg, s, Block(j)))
  {
    hide Sum;
    hide RankOk;
    hide ReplicaOk;
    assert ThreadOk(cfg, DataFlows(cfg, s), s.threads[j]);
    var t := Do(cfg, s, Block(j));
    ThreadStep(cfg, s, j, t.threads[j]);
    ReplaceThread(s, j, t.threads[j]);
  }

  lemma WakeOk(cfg: Config, s: Sys, j: nat)
    requires Inv(cfg, s) && Enabled(cfg, s, Wake(j))
    ensures Inv(cfg, Do(cfg, s, Wake(j)))
  {
    hide Sum;
    hide RankOk;
    assert ThreadOk(cfg, DataFlows(cfg, s), s.threads[j]);
    var t := Do(cfg, s, Wake(j));
    ThreadStep(cfg, s, j, t.threads[j]);
    ReplaceThread(s, j, t.threads[j]);
    var u := s.(threads := t.threads);
    forall r | 1 <= r < cfg.mpiSize
      ensures RankOk(cfg, t, r) && ReplicaOk(cfg, t.model, t.replicas[r]) && TokensOk(cfg, t, r)
    {
      SameRank(cfg, u, t, r);
      assert ReplicaOk(cfg, s.model, s.replicas[r]) && TokensOk(cfg, s, r);
    }
  }

  /** An item is a mark only if the packet's first one is. */
  lemma MarkFirst(cfg: Config, data: bool, p: Packet, pos: nat)
    requires PacketOk(cfg, data, p) && pos < |p|
    ensures IsMark(p[pos]) <==> ENDS(p) == 1
    ensures |p| > 0
  {
  }

  /** What a thread made of an item of its packet. */
  lemma ClassifiedOk(cfg: Config, data: bool, th: Thread, tag: nat)
    requires ThreadOk(cfg, data, th) && Busy(th.work)
    requires IsMark(th.work.packet[th.work.pos]) <==> tag == EOS_LABEL
    ensures var u := Classified(th, tag);
      ThreadOk(cfg, data, u) && Took(th.rank)(u) == Took(th.rank)(th) && GONE(u) == GONE(th) == 0
  {
    hide PacketOk;
    var Working(packet, pos, out) := th.work;
    assert PacketOk(cfg, data, packet) && |packet| > 0;
    MarkFirst(cfg, data, packet, pos);
    var u := Classified(th, tag);
    forall i | 0 <= i < |u.chan| ensures SentOk(u.chan[i], u.work.Ended? && i == |u.chan| - 1) {
      if i < |th.chan| {
        assert SentOk(th.chan[i], false);
      }
    }
  }

  lemma StepOk(cfg: Config, s: Sys, j: nat, tag: nat)
    requires Inv(cfg, s) && Enabled(cfg, s, Step(j, tag))
    ensures Inv(cfg, Do(cfg, s, Step(j, tag)))
  {
    hide Sum;
    hide RankOk;
    hide ThreadOk;
    var th := s.threads[j];
    assert ThreadOk(cfg, DataFlows(cfg, s), th);
    assert EOS_LABEL !in s.replicas[th.rank].known by { assert ReplicaOk(cfg, s.model, s.replicas[th.rank]); }
    ClassifiedOk(cfg, DataFlows(cfg, s), th, tag);
    ThreadStep(cfg, s, j, Classified(th, tag));
    ReplaceThread(s, j, Classified(th, tag));
  }

  lemma DetRecvOk(cfg: Config, s: Sys, j: nat)
    requires Inv(cfg, s) && Enabled(cfg, s, DetRecv(j))
    ensures Inv(cfg, Do(cfg, s, DetRecv(j)))
  {
    hide Sum;
    hide RankOk;
    hide ReplicaOk;
    hide WorkOk;
    var th, t := s.threads[j], Do(cfg, s, DetRecv(j));
    assert ThreadOk(cfg, DataFlows(cfg, s), th);
    assert SentOk(th.chan[0], th.work.Ended? && 0 == |th.chan| - 1);
    var last := |th.chan[0]| - 1;
    assert last >= 0 && (IsMark(th.chan[0][last]) <==> th.work.Ended? && |th.chan| == 1);
    assert forall i :: 0 <= i < last ==> !IsMark(th.chan[0][i]);
    assert ThreadOk(cfg, DataFlows(cfg, s), t.threads[j]) by {
      forall i | 0 <= i < |th.chan| - 1 ensures SentOk(th.chan[1..][i], th.work.Ended? && i == |th.chan| - 2) {
        assert SentOk(th.chan[i + 1], th.work.Ended? && i + 1 == |th.chan| - 1);
      }
    }
    ThreadStep(cfg, s, j, t.threads[j]);
    ReplaceThread(s, j, t.threads[j]);
    hide SentOk;
    assert DetectorOk(t) by { assert t.current == th.chan[0] && t.seen == s.seen; }
    var u := s.(threads := t.threads);
    forall r | 1 <= r < cfg.mpiSize ensures RankOk(cfg, t, r) && TokensOk(cfg, t, r) {
      SameRank(cfg, u, t, r);
      assert TokensOk(cfg, u, r);
    }
  }

  lemma DetItemOk(cfg: Config, s: Sys, found: seq<nat>)
    requires Inv(cfg, s) && Enabled(cfg, s, DetItem(found))
    ensures Inv(cfg, Do(cfg, s, DetItem(found)))
  {
    hide Sum;
    hide RankOk;
    hide ThreadOk;
    var t := Do(cfg, s, DetItem(found));
    SumAppend(s.seen, s.current[0], EOS);
    forall r | 1 <= r < cfg.mpiSize
      ensures RankOk(cfg, t, r) && ReplicaOk(cfg, t.model, t.replicas[r]) && TokensOk(cfg, t, r)
    {
      SameRank(cfg, s, t, r);
      assert ReplicaOk(cfg, s.model, s.replicas[r]) && TokensOk(cfg, s, r);
    }
  }

  /** A rank's receiver or its posts: only that rank's replica changes. */
  lemma ReplicaStep(cfg: Config, s: Sys, k: nat, rep: Replica)
    requires Inv(cfg, s) && 1 <= k < cfg.mpiSize && ReplicaOk(cfg, s.model, rep)
    requires TokensOk(cfg, s.(replicas := s.replicas[k := rep]), k)
    ensures Inv(cfg, s.(replicas := s.replicas[k := rep]))
  {
    hide Sum;
    hide RankOk;
    hide ThreadOk;
    hide ReplicaOk;
    hide DetectorOk;
    var t := s.(replicas := s.replicas[k := rep]);
    forall r | 1 <= r < cfg.mpiSize
      ensures RankOk(cfg, t, r) && ReplicaOk(cfg, t.model, t.replicas[r]) && TokensOk(cfg, t, r)
    {
      SameRank(cfg, s, t, r);
      assert ReplicaOk(cfg, s.model, s.replicas[r]) && TokensOk(cfg, s, r);
    }
    SameDetector(s, t);
  }

  lemma HearOk(cfg: Config, s: Sys, r: nat)
    requires Inv(cfg, s) && Enabled(cfg, s, Hear(r))
    ensures Inv(cfg, Do(cfg, s, Hear(r)))
  {
    hide Sum;
    var rep, head := s.replicas[r], s.model[s.replicas[r].heard];
    assert ReplicaOk(cfg, s.model, rep) && TokensOk(cfg, s, r) && RankOk(cfg, s, r);
    SumAtMost(s.threads, Waits(r), OnRank(r));
    ReplicaStep(cfg, s, r, Heard(cfg, rep, head));
  }

  lemma PostOk(cfg: Config, s: Sys, r: nat)
    requires Inv(cfg, s) && Enabled(cfg, s, Post(r))
    ensures Inv(cfg, Do(cfg, s, Post(r)))
  {
    hide Sum;
    var rep := s.replicas[r];
    assert ReplicaOk(cfg, s.model, rep) && TokensOk(cfg, s, r);
    ReplicaStep(cfg, s, r, rep.(posts := rep.posts - 1, tokens := rep.tokens + 1));
  }

  lemma StartOk(cfg: Config, s: Sys)
    requires Start(cfg, s)
    ensures Inv(cfg, s)
  {
    SumZero(s.threads, GONE);
    forall r | 1 <= r < cfg.mpiSize
      ensures RankOk(cfg, s, r) && ReplicaOk(cfg, s.model, s.replicas[r]) && TokensOk(cfg, s, r)
    {
      assert forall j :: 0 <= j < |s.threads| ==> !Holds(s.threads[j].work) && !s.threads[j].work.Ended?;
      SumZero(s.threads, Took(r));
      SumZero(s.threads, Waits(r));
    }
  }

  /** Every step keeps the invariant. */
  lemma KeepsInv(cfg: Config, s: Sys, e: Event)
    requires Inv(cfg, s) && Enabled(cfg, s, e)
    ensures Inv(cfg, Do(cfg, s, e))
  {
    hide Inv;
    hide Do;
    match e
    case Read => ReadOk(cfg, s);
    case EndInput => EndInputOk(cfg, s);
    case SendEos => SendEosOk(cfg, s);
    case Recv(j) => RecvOk(cfg, s, j);
    case Block(j) => BlockOk(cfg, s, j);
    case Wake(j) => WakeOk(cfg, s, j);
    case Step(j, tag) => StepOk(cfg, s, j, tag);
    case DetRecv(j) => DetRecvOk(cfg, s, j);
    case DetItem(found) => DetItemOk(cfg, s, found);
    case Hear(r) => HearOk(cfg, s, r);
    case Post(r) => PostOk(cfg, s, r);
  }

  /** What holds in every reachable state. */
  lemma {:induction false} EveryRun(cfg: Config, s: Sys, schedule: seq<Event>)
    requires Start(cfg, s)
    ensures Inv(cfg, Exec(cfg, s, schedule))
  {
    hide Do;
    hide Inv;
    if |schedule| == 0 {
      StartOk(cfg, s);
    } else {
      EveryRun(cfg, s, schedule[..|schedule| - 1]);
      var r, e := Exec(cfg, s, schedule[..|schedule| - 1]), schedule[|schedule| - 1];
      if Enabled(cfg, r, e) {
        KeepsInv(cfg, r, e);
      }
    }
  }

  /** How many waits on a rank's semaphore ended in a run. */
  ghost function Woken(cfg: Config, s: Sys, schedule: seq<Event>, r: nat): nat
    requires Shape(cfg, s)
  {
    if |schedule| == 0 then 0
    else
      var before, e := schedule[..|schedule| - 1], schedule[|schedule| - 1];
      var t := Exec(cfg, s, before);
      Woken(cfg, s, before, r) + (if e.Wake? && Enabled(cfg, t, e) && t.threads[e.j].rank == r then 1 else 0)
  }

  lemma StepTokens(cfg: Config, s: Sys, e: Event, r: nat)
    requires Inv(cfg, s) && Enabled(cfg, s, e) && 1 <= r < cfg.mpiSize
    ensures var rep, now := s.replicas[r], Do(cfg, s, e).replicas[r];
      now.tokens + now.posts + (if e.Wake? && s.threads[e.j].rank == r then 1 else 0)
        == rep.tokens + rep.posts + (if |rep.known| < cfg.k <= |now.known| then cfg.nClassifiers else 0)
      && |rep.known| <= |now.known|
  {
    hide Sum;
    hide RanksOk;
    hide ThreadsOk;
    hide DetectorOk;
    hide SamplerOk;
    hide TokensOk;
    assert ReplicaOk(cfg, s.model, s.replicas[r]);
  }

  /** A rank's semaphore gets one post for each classifier once its model is complete, and none
      before: the tokens there, the posts to come and the waits that ended add up to that. */
  lemma {:induction false} TokensCount(cfg: Config, s: Sys, schedule: seq<Event>, r: nat)
    requires Start(cfg, s) && 1 <= r < cfg.mpiSize
    ensures var rep := Exec(cfg, s, schedule).replicas[r];
      rep.tokens + rep.posts + Woken(cfg, s, schedule, r) == if |rep.known| >= cfg.k then cfg.nClassifiers else 0
  {
    hide Do;
    hide Inv;
    hide Enabled;
    if |schedule| > 0 {
      var before, e := schedule[..|schedule| - 1], schedule[|schedule| - 1];
      var t := Exec(cfg, s, before);
      TokensCount(cfg, s, before, r);
      EveryRun(cfg, s, before);
      if Enabled(cfg, t, e) {
        StepTokens(cfg, t, e, r);
      }
    }
  }
}
