/** Conservation over every run of the pipeline, and exactly when leaving the detector's loop is
    safe. */
module Shutdown {
  import opened Sums
  import opened Ranks
  import opened Labels
  import opened Pipeline
  import opened Delivery

  function InPacket(f: Item -> nat): Packet -> nat {
    (p: Packet) => Sum(p, f)
  }

  function InQueue(f: Item -> nat): seq<Packet> -> nat {
    (q: seq<Packet>) => Sum(q, InPacket(f))
  }

  function Held(w: Work, f: Item -> nat): nat {
    if Holds(w) && w.pos <= |w.packet| then Sum(w.packet[w.pos..], f) + Sum(w.out, f) else 0
  }

  /** What a thread holds: the rest of its packet, what it classified of it, and its channel. */
  function InThread(f: Item -> nat): Thread -> nat {
    (th: Thread) => Held(th.work, f) + Sum(th.chan, InPacket(f))
  }

  /** Everything between the sampler's input and the detector's output. */
  function Total(s: Sys, f: Item -> nat): nat {
    Sum(s.buffer, f) + Sum(s.inQ, InQueue(f)) + Sum(s.threads, InThread(f)) + Sum(s.current, f) + Sum(s.seen, f)
  }

  /** A weight that takes no account of labels, but for the mark. */
  ghost predicate Blind(f: Item -> nat) {
    forall it: Item, ju: Item :: it.id == ju.id && !IsMark(it) && !IsMark(ju) ==> f(it) == f(ju)
  }

  lemma DispatchConserves(cfg: Config, s: Sys, packet: Packet, f: Item -> nat)
    requires cfg.mpiSize >= 2 && |s.inQ| == |s.itemsWhere| == cfg.mpiSize && s.dest < cfg.mpiSize
    ensures Sum(Dispatched(cfg, s, packet).inQ, InQueue(f)) == Sum(s.inQ, InQueue(f)) + Sum(packet, f)
  {
    hide Sum;
    var d := NextDest(s.dest, cfg.mpiSize);
    SumUpdate(s.inQ, d, s.inQ[d] + [packet], InQueue(f));
    SumAppend(s.inQ[d], packet, InPacket(f));
  }

  /** A classifier passes on what it took, under whatever label it found. */
  lemma ClassifyConserves(cfg: Config, data: bool, th: Thread, tag: nat, f: Item -> nat)
    requires (cfg.unset != EOS_LABEL || !data) && Blind(f)
    requires WorkOk(cfg, data, th.work) && Busy(th.work) && (IsMark(th.work.packet[th.work.pos]) <==> tag == EOS_LABEL)
    ensures InThread(f)(Classified(th, tag)) == InThread(f)(th)
  {
    hide Sum;
    var Working(packet, pos, out) := th.work;
    var it := Item(packet[pos].id, tag);
    assert f(it) == f(packet[pos]) by {
      if IsMark(it) { assert it == packet[pos]; }
    }
    SumHead(packet[pos..], f);
    assert packet[pos..][1..] == packet[pos + 1..];
    SumAppend(out, it, f);
    SumAppend(th.chan, out + [it], InPacket(f));
    if IsMark(packet[pos]) || pos + 1 == |packet| {
      assert packet[pos + 1..] == [];
      SumZero(packet[pos + 1..], f);
    }
  }

  lemma ReadConserves(cfg: Config, s: Sys, f: Item -> nat)
    requires Inv(cfg, s) && Enabled(cfg, s, Read) && Sum(s.issued, f) == Total(s, f)
    ensures Sum(Do(cfg, s, Read).issued, f) == Total(Do(cfg, s, Read), f)
  {
    hide Sum;
    hide RanksOk;
    hide ModelsOk;
    hide ThreadsOk;
    hide DetectorOk;
    if s.input[0].ExampleLine? {
      var it := Item(s.nextId, cfg.unset);
      SumAppend(s.issued, it, f);
      SumAppend(s.buffer, it, f);
      SumZero<Item>([], f);
      DispatchConserves(cfg, s.(input := s.input[1..], nextId := s.nextId + 1, issued := s.issued + [it],
                                buffer := s.buffer + [it]),
                        s.buffer + [it], f);
    }
  }

  /** No rank's model has a cluster labelled with the mark, so no example is identified as one. */
  lemma StepIsRight(cfg: Config, s: Sys, j: nat, tag: nat)
    requires Inv(cfg, s) && Enabled(cfg, s, Step(j, tag))
    ensures var th := s.threads[j];
      WorkOk(cfg, DataFlows(cfg, s), th.work) && (IsMark(th.work.packet[th.work.pos]) <==> tag == EOS_LABEL)
  {
    assert ThreadOk(cfg, DataFlows(cfg, s), s.threads[j]);
    assert ReplicaOk(cfg, s.model, s.replicas[s.threads[j].rank]);
  }

  lemma ThreadConserves(cfg: Config, s: Sys, e: Event, f: Item -> nat)
    requires (cfg.unset != EOS_LABEL || s.nextId == 0) && Blind(f) && Inv(cfg, s) && Enabled(cfg, s, e)
    requires e.Recv? || e.Block? || e.Wake? || e.Step? || e.DetRecv?
    ensures Total(Do(cfg, s, e), f) == Total(s, f)
  {
    hide Sum;
    hide SamplerOk;
    hide RanksOk;
    hide ModelsOk;
    hide DetectorOk;
    match e
    case Recv(j) =>
      var th := s.threads[j];
      var q := s.inQ[th.rank];
      SumUpdate(s.inQ, th.rank, q[1..], InQueue(f));
      SumHead(q, InPacket(f));
      SumUpdate(s.threads, j, th.(work := Working(q[0], 0, [])), InThread(f));
      SumZero<Item>([], f);
      assert q[0][0..] == q[0];
    case Block(j) => SumUpdate(s.threads, j, Do(cfg, s, e).threads[j], InThread(f));
    case Wake(j) => SumUpdate(s.threads, j, Do(cfg, s, e).threads[j], InThread(f));
    case Step(j, tag) =>
      SumUpdate(s.threads, j, Classified(s.threads[j], tag), InThread(f));
      StepIsRight(cfg, s, j, tag);
      ClassifyConserves(cfg, DataFlows(cfg, s), s.threads[j], tag, f);
    case DetRecv(j) =>
      var th := s.threads[j];
      SumHead(th.chan, InPacket(f));
      SumUpdate(s.threads, j, th.(chan := th.chan[1..]), InThread(f));
      SumZero(s.current, f);
  }

  /** Whatever is counted, no step creates or loses any of it, if the unset label is no mark or no
      example was read. */
  lemma StepConserves(cfg: Config, s: Sys, e: Event, f: Item -> nat)
    requires (cfg.unset != EOS_LABEL || s.nextId == 0) && Blind(f) && Inv(cfg, s) && Enabled(cfg, s, e)
    requires Sum(s.issued, f) == Total(s, f)
    ensures Sum(Do(cfg, s, e).issued, f) == Total(Do(cfg, s, e), f)
  {
    hide Sum;
    hide RanksOk;
    hide ModelsOk;
    hide ThreadsOk;
    hide DetectorOk;
    match e
    case Read => ReadConserves(cfg, s, f);
    case EndInput =>
      SumZero<Item>([], f);
      DispatchConserves(cfg, s, s.buffer, f);
    case SendEos =>
      var d, m := s.phase.d, Marker(s);
      SumAppend(s.issued, m, f);
      SumUpdate(s.inQ, d, s.inQ[d] + [[m]], InQueue(f));
      SumAppend(s.inQ[d], [m], InPacket(f));
      SumOne(m, f);
    case DetItem(found) =>
      SumHead(s.current, f);
      SumAppend(s.seen, s.current[0], f);
    case Hear(r) =>
    case Post(r) =>
    case _ => ThreadConserves(cfg, s, e, f);
  }

  /** Examples of an input. */
  function Examples(lines: seq<Line>): nat {
    if |lines| == 0 then 0 else (if lines[0].ExampleLine? then 1 else 0) + Examples(lines[1..])
  }

  /** The sampler's unset label is not taken for the mark. */
  predicate Harmless(cfg: Config, s: Sys) {
    cfg.unset != EOS_LABEL || Examples(s.input) == 0
  }

  /** The example's number, as an example and not as a marker. */
  function Is(x: nat): Item -> nat {
    (it: Item) => if it.id == x && !IsMark(it) then 1 else 0
  }

  lemma StepNumbers(cfg: Config, s: Sys, e: Event, x: nat)
    requires Shape(cfg, s) && Enabled(cfg, s, e)
    ensures var t := Do(cfg, s, e);
      && t.nextId + Examples(t.input) == s.nextId + Examples(s.input)
      && (cfg.unset != EOS_LABEL || t.nextId == 0 ==>
            Sum(t.issued, Is(x)) + (if x < s.nextId then 1 else 0)
              == Sum(s.issued, Is(x)) + (if x < t.nextId then 1 else 0))
  {
    hide Sum;
    if e.Read? && s.input[0].ExampleLine? {
      SumAppend(s.issued, Item(s.nextId, cfg.unset), Is(x));
    } else if e.SendEos? {
      SumAppend(s.issued, Marker(s), Is(x));
    }
  }

  /** Numbers are given once, one to each example read. */
  lemma {:induction false} Numbered(cfg: Config, s: Sys, schedule: seq<Event>, x: nat)
    requires Start(cfg, s)
    ensures var t := Exec(cfg, s, schedule);
      && t.nextId + Examples(t.input) == Examples(s.input)
      && (Harmless(cfg, s) ==> Sum(t.issued, Is(x)) == if x < t.nextId then 1 else 0)
  {
    hide Sum;
    hide Do;
    hide Enabled;
    if |schedule| == 0 {
      SumZero(s.issued, Is(x));
    } else {
      Numbered(cfg, s, schedule[..|schedule| - 1], x);
      var r, e := Exec(cfg, s, schedule[..|schedule| - 1]), schedule[|schedule| - 1];
      if Enabled(cfg, r, e) {
        StepNumbers(cfg, r, e, x);
      }
    }
  }

  lemma StartTotals(cfg: Config, s: Sys, f: Item -> nat)
    requires Start(cfg, s)
    ensures Sum(s.issued, f) == Total(s, f) == 0
  {
    assert Sum(s.inQ, InQueue(f)) == 0 by { SumZero(s.inQ, InQueue(f)); }
    assert Sum(s.threads, InThread(f)) == 0 by { SumZero(s.threads, InThread(f)); }
  }

  lemma KnowsNoMark(cfg: Config, s: Sys, r: nat)
    requires Inv(cfg, s) && 1 <= r < cfg.mpiSize
    ensures EOS_LABEL !in s.replicas[r].known
  {
    assert ReplicaOk(cfg, s.model, s.replicas[r]);
  }

  /** No example is ever identified as a mark: in every reachable state no rank's model has a
      cluster so labelled, whatever the labels of the input and of novelties. */
  lemma NoMatchIsMark(cfg: Config, s: Sys, schedule: seq<Event>, j: nat, tag: nat)
    requires Start(cfg, s) && Enabled(cfg, Exec(cfg, s, schedule), Step(j, tag))
    ensures var t := Exec(cfg, s, schedule);
      && EOS_LABEL !in t.replicas[t.threads[j].rank].known
      && (tag == EOS_LABEL <==> IsMark(t.threads[j].work.packet[t.threads[j].work.pos]))
  {
    hide Exec;
    hide Inv;
    EveryRun(cfg, s, schedule);
    StepIsRight(cfg, Exec(cfg, s, schedule), j, tag);
    KnowsNoMark(cfg, Exec(cfg, s, schedule), Exec(cfg, s, schedule).threads[j].rank);
  }

  /** In every state of every run: what was issued is what is under way or was seen. */
  lemma {:induction false} NothingLost(cfg: Config, s: Sys, schedule: seq<Event>, f: Item -> nat)
    requires Start(cfg, s) && Harmless(cfg, s) && Blind(f)
    ensures var t := Exec(cfg, s, schedule); Sum(t.issued, f) == Total(t, f)
  {
    hide Do;
    hide Inv;
    hide Blind;
    if |schedule| == 0 {
      StartTotals(cfg, s, f);
    } else {
      NothingLost(cfg, s, schedule[..|schedule| - 1], f);
      var r, e := Exec(cfg, s, schedule[..|schedule| - 1]), schedule[|schedule| - 1];
      if Enabled(cfg, r, e) {
        EveryRun(cfg, s, schedule[..|schedule| - 1]);
        Numbered(cfg, s, schedule[..|schedule| - 1], 0);
        StepConserves(cfg, r, e, f);
      }
    }
  }

  ghost predicate MarksLast(cfg: Config, t: Sys) {
    forall i :: 0 <= i < |t.issued| && IsMark(t.issued[i]) ==>
      t.phase.Closing? && t.issued[i].id == if t.nextId == 0 then 0 else t.nextId - 1
  }

  lemma StepMarksLast(cfg: Config, s: Sys, e: Event)
    requires Shape(cfg, s) && Enabled(cfg, s, e) && cfg.unset != EOS_LABEL && MarksLast(cfg, s)
    ensures MarksLast(cfg, Do(cfg, s, e))
  {
  }

  /** The sampler's markers come after all examples, and have the number of the last one. */
  lemma {:induction false} MarkersComeLast(cfg: Config, s: Sys, schedule: seq<Event>)
    requires Start(cfg, s) && cfg.unset != EOS_LABEL
    ensures MarksLast(cfg, Exec(cfg, s, schedule))
  {
    hide Do;
    hide Enabled;
    if |schedule| > 0 {
      MarkersComeLast(cfg, s, schedule[..|schedule| - 1]);
      var t, e := Exec(cfg, s, schedule[..|schedule| - 1]), schedule[|schedule| - 1];
      if Enabled(cfg, t, e) {
        StepMarksLast(cfg, t, e);
      }
    }
  }

  /** What a thread classified and the detector did not receive. */
  function Labelled(f: Item -> nat): Thread -> nat {
    (th: Thread) => (if Holds(th.work) then Sum(th.work.out, f) else 0) + Sum(th.chan, InPacket(f))
  }

  function Arriving(s: Sys, f: Item -> nat): nat {
    Sum(s.threads, Labelled(f)) + Sum(s.current, f) + Sum(s.seen, f)
  }

  lemma ClassifyAdds(th: Thread, tag: nat, f: Item -> nat)
    requires Busy(th.work)
    ensures Labelled(f)(Classified(th, tag)) == Labelled(f)(th) + f(Item(th.work.packet[th.work.pos].id, tag))
  {
    hide Sum;
    var Working(packet, pos, out) := th.work;
    SumAppend(out, Item(packet[pos].id, tag), f);
    SumAppend(th.chan, out + [Item(packet[pos].id, tag)], InPacket(f));
  }

  lemma StepArrives(cfg: Config, s: Sys, e: Event, f: Item -> nat)
    requires Shape(cfg, s) && Enabled(cfg, s, e)
    ensures Arriving(Do(cfg, s, e), f) == Arriving(s, f)
      + (if e.Step? then var w := s.threads[e.j].work; f(Item(w.packet[w.pos].id, e.tag)) else 0)
  {
    hide Sum;
    match e
    case Recv(j) =>
      SumUpdate(s.threads, j, Do(cfg, s, e).threads[j], Labelled(f));
      SumZero<Item>([], f);
    case Block(j) => SumUpdate(s.threads, j, Do(cfg, s, e).threads[j], Labelled(f));
    case Wake(j) => SumUpdate(s.threads, j, Do(cfg, s, e).threads[j], Labelled(f));
    case Step(j, tag) =>
      SumUpdate(s.threads, j, Classified(s.threads[j], tag), Labelled(f));
      ClassifyAdds(s.threads[j], tag, f);
    case DetRecv(j) =>
      SumHead(s.threads[j].chan, InPacket(f));
      SumUpdate(s.threads, j, Do(cfg, s, e).threads[j], Labelled(f));
      SumZero(s.current, f);
    case DetItem(found) =>
      SumHead(s.current, f);
      SumAppend(s.seen, s.current[0], f);
    case _ =>
  }

  /** Of what classifiers answered in a run, the weight. */
  ghost function AnsweredIn(cfg: Config, s: Sys, schedule: seq<Event>, f: Item -> nat): nat
    requires Shape(cfg, s)
  {
    if |schedule| == 0 then 0
    else
      var before, e := schedule[..|schedule| - 1], schedule[|schedule| - 1];
      var t := Exec(cfg, s, before);
      AnsweredIn(cfg, s, before, f)
      + (if e.Step? && Enabled(cfg, t, e)
         then var w := t.threads[e.j].work; f(Item(w.packet[w.pos].id, e.tag)) else 0)
  }

  /** The detector gets the labels that classifiers answered: in every state of every run, counted in
      any way, each answer is on its way to the detector or was seen there, under its label. */
  lemma {:induction false} LabelsArrive(cfg: Config, s: Sys, schedule: seq<Event>, f: Item -> nat)
    requires Start(cfg, s)
    ensures AnsweredIn(cfg, s, schedule, f) == Arriving(Exec(cfg, s, schedule), f)
  {
    hide Sum;
    hide Do;
    hide Enabled;
    if |schedule| == 0 {
      SumZero<Packet>([], InPacket(f));
      SumZero(s.threads, Labelled(f));
      SumZero(s.current, f);
      SumZero(s.seen, f);
    } else {
      LabelsArrive(cfg, s, schedule[..|schedule| - 1], f);
      var t, e := Exec(cfg, s, schedule[..|schedule| - 1]), schedule[|schedule| - 1];
      if Enabled(cfg, t, e) {
        StepArrives(cfg, t, e, f);
      }
    }
  }

  ghost predicate AllGone(s: Sys) {
    s.current == [] && forall j :: 0 <= j < |s.threads| ==> s.threads[j].work.Ended? && s.threads[j].chan == []
  }

  /** The detector has left its loop exactly if all threads ended and it took all they sent. */
  lemma FinishedIsGone(cfg: Config, s: Sys)
    requires Inv(cfg, s)
    ensures Finished(s) <==> AllGone(s)
    ensures Sum(s.seen, EOS) <= |s.threads|
  {
    hide Sum;
    hide RanksOk;
    hide ModelsOk;
    hide ThreadsOk;
    AllCounted(s.threads, GONE);
    if Finished(s) {
      assert forall j :: 0 <= j < |s.threads| ==> GONE(s.threads[j]) == 1;
    }
    if AllGone(s) {
      assert forall j :: 0 <= j < |s.threads| ==> GONE(s.threads[j]) == 1;
    }
  }

  /** Every place between the input and the detector is empty, and the sampler sent all markers. */
  ghost predicate Drained(cfg: Config, s: Sys) {
    && s.input == [] && s.buffer == [] && AllGone(s) && s.phase == Closing(cfg.mpiSize, 0)
    && (forall r :: 0 <= r < |s.inQ| ==> s.inQ[r] == [])
  }

  lemma QueueAtEnd(cfg: Config, s: Sys, r: nat)
    requires Inv(cfg, s) && AllGone(s) && 1 <= r < cfg.mpiSize
    ensures Sum(s.inQ[r], ENDS) + cfg.nClassifiers
         == SentMarkers(cfg, s.phase, r) + (if cfg.unset == EOS_LABEL then s.itemsWhere[r] else 0)
    ensures cfg.unset != EOS_LABEL || s.nextId == 0 ==> s.inQ[r] == [] && s.phase.Closing? && r < s.phase.d
  {
    hide Sum;
    assert RankOk(cfg, s, r);
    assert Sum(s.threads, OnRank(r)) == Sum(s.threads, Took(r)) by {
      SumEqual(s.threads, OnRank(r), Took(r));
    }
    if cfg.unset != EOS_LABEL || s.nextId == 0 {
      NoneEnd(s.inQ[r]);
    }
  }

  /** Each example of the input was seen once, as an example, and each thread's mark. */
  ghost predicate AllSeen(cfg: Config, lines: seq<Line>, t: Sys) {
    && (forall x: nat :: Sum(t.seen, Is(x)) == if x < Examples(lines) then 1 else 0)
    && Sum(t.seen, EOS) == cfg.nClassifiers * (cfg.mpiSize - 1)
  }

  lemma DrainedAtEnd(cfg: Config, t: Sys)
    requires Inv(cfg, t) && Finished(t) && (cfg.unset != EOS_LABEL || t.nextId == 0)
    ensures Drained(cfg, t)
  {
    hide Sum;
    FinishedIsGone(cfg, t);
    forall r | 0 <= r < |t.inQ| ensures t.inQ[r] == [] {
      if r > 0 { QueueAtEnd(cfg, t, r); }
    }
    QueueAtEnd(cfg, t, cfg.mpiSize - 1);
  }

  lemma SeenOnce(cfg: Config, s: Sys, schedule: seq<Event>, x: nat)
    requires Start(cfg, s) && Finished(Exec(cfg, s, schedule))
    requires Harmless(cfg, s)
    ensures Drained(cfg, Exec(cfg, s, schedule))
    ensures Sum(Exec(cfg, s, schedule).seen, Is(x)) == if x < Examples(s.input) then 1 else 0
  {
    var t := Exec(cfg, s, schedule);
    EveryRun(cfg, s, schedule);
    Numbered(cfg, s, schedule, x);
    DrainedAtEnd(cfg, t);
    NothingLost(cfg, s, schedule, Is(x));
    assert Sum(t.inQ, InQueue(Is(x))) == 0 by { SumZero(t.inQ, InQueue(Is(x))); }
    assert Sum(t.threads, InThread(Is(x))) == 0 by { SumZero(t.threads, InThread(Is(x))); }
  }

  ghost predicate Safe(cfg: Config, lines: seq<Line>, t: Sys) {
    Drained(cfg, t) && AllSeen(cfg, lines, t)
  }

  /** Exactly-once delivery and safe shutdown: when the detector has left its loop everything is
      drained, every thread ended, and every example of the input was seen exactly once. It does
      not depend on the labels of clusters: a receiver stops at the mark before it adds anything. */
  lemma SafeShutdown(cfg: Config, s: Sys, schedule: seq<Event>)
    requires Start(cfg, s) && Harmless(cfg, s) && Finished(Exec(cfg, s, schedule))
    ensures Safe(cfg, s.input, Exec(cfg, s, schedule))
  {
    hide Exec;
    hide Drained;
    var t := Exec(cfg, s, schedule);
    EveryRun(cfg, s, schedule);
    FinishedIsGone(cfg, t);
    forall x: nat ensures Sum(t.seen, Is(x)) == if x < Examples(s.input) then 1 else 0 {
      SeenOnce(cfg, s, schedule, x);
    }
    SeenOnce(cfg, s, schedule, 0);
  }

  /** If the unset label is the mark and some example comes, leaving the loop is never safe: a
      packet taken for an end of stream leaves a marker behind. */
  lemma UnsafeShutdown(cfg: Config, s: Sys, schedule: seq<Event>)
    requires Start(cfg, s) && !Harmless(cfg, s)
    ensures !Safe(cfg, s.input, Exec(cfg, s, schedule))
  {
    hide Exec;
    hide Sum;
    var t := Exec(cfg, s, schedule);
    EveryRun(cfg, s, schedule);
    Numbered(cfg, s, schedule, 0);
    if Drained(cfg, t) {
      var r: nat :| 1 <= r < |t.itemsWhere| && t.itemsWhere[r] > 0;
      QueueAtEnd(cfg, t, r);
      SumZero(t.inQ[r], ENDS);
    }
  }

  /** No example is seen more often than it was read, in any state. */
  lemma NeverTwice(cfg: Config, s: Sys, schedule: seq<Event>, x: nat)
    requires Start(cfg, s) && Harmless(cfg, s)
    ensures Sum(Exec(cfg, s, schedule).seen, Is(x)) <= if x < Examples(s.input) then 1 else 0
  {
    hide Exec;
    NothingLost(cfg, s, schedule, Is(x));
    Numbered(cfg, s, schedule, x);
  }

  /** Packets sent to the ranks: those up to `dest` got one more than those after it. */
  ghost predicate Balanced(cfg: Config, s: Sys)
    requires Shape(cfg, s)
  {
    && s.itemsWhere[0] == 0
    && (forall r :: 1 <= r < cfg.mpiSize ==>
          s.itemsWhere[r] + (if r > s.dest > 0 then 1 else 0) == (if s.dest == 0 then 0 else s.itemsWhere[s.dest]))
  }

  lemma DispatchBalanced(cfg: Config, s: Sys, packet: Packet)
    requires Shape(cfg, s) && Balanced(cfg, s)
    ensures Shape(cfg, Dispatched(cfg, s, packet)) && Balanced(cfg, Dispatched(cfg, s, packet))
  {
  }

  lemma StaysBalanced(cfg: Config, s: Sys, e: Event)
    requires Shape(cfg, s) && Enabled(cfg, s, e) && Balanced(cfg, s)
    ensures Balanced(cfg, Do(cfg, s, e))
  {
    if e.Read? && s.input[0].ExampleLine? {
      var it := Item(s.nextId, cfg.unset);
      var t := s.(input := s.input[1..], nextId := s.nextId + 1, issued := s.issued + [it], buffer := s.buffer + [it]);
      DispatchBalanced(cfg, t, t.buffer);
    } else if e.EndInput? {
      DispatchBalanced(cfg, s, s.buffer);
    } else {
      var t := Do(cfg, s, e);
      assert t.itemsWhere == s.itemsWhere && t.dest == s.dest;
    }
  }

  /** The round-robin is fair: no two classifier ranks ever differ by more than one packet. */
  lemma {:induction false} RoundRobinIsFair(cfg: Config, s: Sys, schedule: seq<Event>)
    requires Start(cfg, s)
    ensures var t := Exec(cfg, s, schedule);
      && Balanced(cfg, t)
      && forall r, q :: 1 <= r < cfg.mpiSize && 1 <= q < cfg.mpiSize ==> t.itemsWhere[r] <= t.itemsWhere[q] + 1
  {
    hide Do;
    if |schedule| > 0 {
      RoundRobinIsFair(cfg, s, schedule[..|schedule| - 1]);
      var r, e := Exec(cfg, s, schedule[..|schedule| - 1]), schedule[|schedule| - 1];
      if Enabled(cfg, r, e) {
        StaysBalanced(cfg, r, e);
      }
    }
  }
}
