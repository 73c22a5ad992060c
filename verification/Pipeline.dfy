/** The distributed pipeline (src/threaded-mpi.c) as interleaved steps: the sampler's packets, the
    classifier threads with their rank's model and semaphore, the model receivers, and the detector.
    Messages of one sending thread to one rank do not overtake each other; those of different
    threads may. End of stream and end of broadcast are labels, as in the program. */
module Pipeline {
  import opened Sums
  import opened Ranks
  import opened Labels

  /** An example by its id, with the label it carries; the end-of-stream marker is one whose label
      is the mark. */
  datatype Item = Item(id: nat, tag: nat)

  type Packet = seq<Item>

  predicate IsMark(it: Item) {
    it.tag == EOS_LABEL
  }

  datatype Line = ClusterLine(id: nat, tag: nat) | ExampleLine | OtherLine

  /** `unset` is the label of the sampler's example, which is never written before the marker. */
  datatype Config = Config(mpiSize: nat, nClassifiers: nat, packetSize: nat, k: nat, unset: nat) {
    predicate Valid() {
      mpiSize >= 2 && nClassifiers >= 1 && packetSize >= 1 && k >= 1
    }
  }

  /** The sampler reads input, then sends the markers: `i` of them went to rank `d` already. */
  datatype Phase = Streaming | Closing(d: nat, i: nat)

  /** A classifier waits for a packet, works at position `pos` of one, waits there for the model to
      be complete, or has ended. */
  datatype Work =
    | Receiving
    | Working(packet: Packet, pos: nat, out: Packet)
    | Waiting(packet: Packet, pos: nat, out: Packet)
    | Ended

  /** `chan` holds the packets the thread sent that the detector has not received. */
  datatype Thread = Thread(rank: nat, work: Work, chan: seq<Packet>)

  /** What the receivers look at in a cluster. */
  datatype Head = Head(id: nat, tag: nat)

  /** A rank's model, by its labels: how many broadcasts its receiver heard, whether it still
      listens, whether its assertion ended the rank, the posts it has yet to make, and its
      semaphore. */
  datatype Replica = Replica(known: seq<nat>, heard: nat, listening: bool, dead: bool, posts: nat, tokens: nat)

  /** `model` holds the root's clusters, each broadcast as it is added. */
  datatype Sys = Sys(
    input: seq<Line>, nextId: nat, issued: seq<Item>, buffer: Packet, dest: nat, itemsWhere: seq<nat>, phase: Phase,
    model: seq<Head>, replicas: seq<Replica>, inQ: seq<seq<Packet>>, threads: seq<Thread>,
    current: Packet, from: nat, seen: seq<Item>)

  datatype Event =
    | Read | EndInput | SendEos
    | Recv(j: nat) | Block(j: nat) | Wake(j: nat) | Step(j: nat, tag: nat)
    | DetRecv(j: nat) | DetItem(found: seq<nat>)
    | Hear(r: nat) | Post(r: nat)

  const EOS: Item -> nat := (it: Item) => if IsMark(it) then 1 else 0

  /** The detector's loop runs while fewer marks came than there are classifier threads. */
  predicate Finished(s: Sys) {
    Sum(s.seen, EOS) >= |s.threads|
  }

  /** The sizes that never change. */
  ghost predicate Shape(cfg: Config, s: Sys) {
    && cfg.Valid() && |s.inQ| == |s.itemsWhere| == |s.replicas| == cfg.mpiSize && s.dest < cfg.mpiSize
    && (forall j :: 0 <= j < |s.threads| ==> 1 <= s.threads[j].rank < cfg.mpiSize)
  }

  /** The classifier is at an item of its packet. */
  predicate Busy(w: Work) {
    w.Working? && w.pos < |w.packet|
  }

  /** The rank of the thread goes on: its receiver's assertion did not end it. */
  predicate Alive(s: Sys, j: nat)
    requires j < |s.threads| && s.threads[j].rank < |s.replicas|
  {
    !s.replicas[s.threads[j].rank].dead
  }

  ghost predicate Enabled(cfg: Config, s: Sys, e: Event)
    requires Shape(cfg, s)
  {
    match e
    case Read => s.phase.Streaming? && |s.input| > 0
    case EndInput => s.phase.Streaming? && |s.input| == 0
    case SendEos => s.phase.Closing? && s.phase.d < cfg.mpiSize
    case Recv(j) =>
      j < |s.threads| && Alive(s, j) && s.threads[j].work.Receiving? && |s.inQ[s.threads[j].rank]| > 0
    case Block(j) =>
      j < |s.threads| && Alive(s, j) && Busy(s.threads[j].work)
      && !IsMark(s.threads[j].work.packet[s.threads[j].work.pos])
      && |s.replicas[s.threads[j].rank].known| < cfg.k
    case Wake(j) =>
      j < |s.threads| && Alive(s, j) && s.threads[j].work.Waiting? && s.replicas[s.threads[j].rank].tokens > 0
    case Step(j, tag) =>
      j < |s.threads| && Alive(s, j) && Busy(s.threads[j].work)
      && if IsMark(s.threads[j].work.packet[s.threads[j].work.pos]) then tag == EOS_LABEL
         else |s.replicas[s.threads[j].rank].known| >= cfg.k && MayAnswer(s.replicas[s.threads[j].rank].known, tag)
    case DetRecv(j) => j < |s.threads| && !Finished(s) && |s.current| == 0 && |s.threads[j].chan| > 0
    case DetItem(found) => !Finished(s) && |s.current| > 0 && (s.current[0].tag != UNKNOWN_LABEL ==> found == [])
    case Hear(r) =>
      1 <= r < cfg.mpiSize && s.replicas[r].listening && s.replicas[r].posts == 0 && s.replicas[r].heard < |s.model|
    case Post(r) => 1 <= r < cfg.mpiSize && !s.replicas[r].dead && s.replicas[r].posts > 0
  }

  /** A packet goes to the next rank in turn. */
  function Dispatched(cfg: Config, s: Sys, packet: Packet): (r: Sys)
    requires cfg.mpiSize >= 2 && |s.inQ| == |s.itemsWhere| == cfg.mpiSize && s.dest < cfg.mpiSize
    ensures |r.inQ| == |r.itemsWhere| == cfg.mpiSize && r.dest < cfg.mpiSize && r.threads == s.threads
    ensures r.replicas == s.replicas
  {
    var d := NextDest(s.dest, cfg.mpiSize);
    s.(dest := d, inQ := s.inQ[d := s.inQ[d] + [packet]], itemsWhere := s.itemsWhere[d := s.itemsWhere[d] + 1],
       buffer := [])
  }

  /** The example of a line is numbered and buffered, and a full buffer is sent. */
  function Sampled(cfg: Config, s: Sys): (r: Sys)
    requires cfg.mpiSize >= 2 && |s.inQ| == |s.itemsWhere| == cfg.mpiSize && s.dest < cfg.mpiSize
    ensures |r.inQ| == |r.itemsWhere| == cfg.mpiSize && r.dest < cfg.mpiSize && r.threads == s.threads
    ensures r.replicas == s.replicas
  {
    var it := Item(s.nextId, cfg.unset);
    var t := s.(nextId := s.nextId + 1, issued := s.issued + [it], buffer := s.buffer + [it]);
    if |t.buffer| < cfg.packetSize then t else Dispatched(cfg, t, t.buffer)
  }

  /** The marker is the sampler's last example under the end-of-stream label. */
  function Marker(s: Sys): (it: Item)
    ensures IsMark(it)
  {
    Item(if s.nextId > 0 then s.nextId - 1 else 0, EOS_LABEL)
  }

  /** One item of a packet: a marker is sent on at once and ends the thread; an example gets the
      label it is identified with, and the packet is sent on when it is done. */
  function Classified(th: Thread, tag: nat): Thread
    requires Busy(th.work)
  {
    var Working(packet, pos, out) := th.work;
    var out' := out + [Item(packet[pos].id, tag)];
    if IsMark(packet[pos]) then th.(work := Ended, chan := th.chan + [out'])
    else if pos + 1 == |packet| then th.(work := Receiving, chan := th.chan + [out'])
    else th.(work := Working(packet, pos + 1, out'))
  }

  /** `m_receiver` takes one broadcast: it stops at the mark before adding anything, its assertion
      ends the rank at an id that is not the size of its model, and it completes the model with a
      post for every classifier. */
  function Heard(cfg: Config, rep: Replica, head: Head): Replica {
    var r := rep.(heard := rep.heard + 1);
    if head.tag == EOS_LABEL then r.(listening := false)
    else if head.id != |rep.known| then r.(listening := false, dead := true)
    else r.(known := rep.known + [head.tag], posts := if |rep.known| + 1 == cfg.k then cfg.nClassifiers else rep.posts)
  }

  /** Clusters as a novelty round appends them: their ids are their positions. */
  function Joined(found: seq<nat>, size: nat): (r: seq<Head>)
    ensures |r| == |found|
  {
    seq(|found|, i requires 0 <= i < |found| => Head(size + i, found[i]))
  }

  ghost function Do(cfg: Config, s: Sys, e: Event): (r: Sys)
    requires Shape(cfg, s) && Enabled(cfg, s, e)
    ensures Shape(cfg, r) && |r.threads| == |s.threads|
  {
    match e
    case Read =>
      var t := s.(input := s.input[1..]);
      (match s.input[0]
       case ClusterLine(id, tag) => if |s.model| <= id then t.(model := s.model + [Head(id, tag)]) else t
       case ExampleLine => Sampled(cfg, t)
       case OtherLine => t)
    case EndInput =>
      (if |s.buffer| > 0 then Dispatched(cfg, s, s.buffer) else s).(phase := Closing(1, 0))
    case SendEos =>
      var Closing(d, i) := s.phase;
      s.(inQ := s.inQ[d := s.inQ[d] + [[Marker(s)]]], issued := s.issued + [Marker(s)],
         phase := if i + 1 == cfg.nClassifiers then Closing(d + 1, 0) else Closing(d, i + 1))
    case Recv(j) =>
      var th := s.threads[j];
      s.(inQ := s.inQ[th.rank := s.inQ[th.rank][1..]],
         threads := s.threads[j := th.(work := Working(s.inQ[th.rank][0], 0, []))])
    case Block(j) =>
      var w := s.threads[j].work;
      s.(threads := s.threads[j := s.threads[j].(work := Waiting(w.packet, w.pos, w.out))])
    case Wake(j) =>
      var w, r := s.threads[j].work, s.threads[j].rank;
      s.(threads := s.threads[j := s.threads[j].(work := Working(w.packet, w.pos, w.out))],
         replicas := s.replicas[r := s.replicas[r].(tokens := s.replicas[r].tokens - 1)])
    case Step(j, tag) =>
      s.(threads := s.threads[j := Classified(s.threads[j], tag)])
    case DetRecv(j) =>
      s.(current := s.threads[j].chan[0], from := j,
         threads := s.threads[j := s.threads[j].(chan := s.threads[j].chan[1..])])
    case DetItem(found) =>
      s.(current := s.current[1..], seen := s.seen + [s.current[0]], model := s.model + Joined(found, |s.model|))
    case Hear(r) =>
      s.(replicas := s.replicas[r := Heard(cfg, s.replicas[r], s.model[s.replicas[r].heard])])
    case Post(r) =>
      s.(replicas := s.replicas[r := s.replicas[r].(posts := s.replicas[r].posts - 1,
                                                    tokens := s.replicas[r].tokens + 1)])
  }

  function OnRank(r: nat): Thread -> nat {
    (th: Thread) => if th.rank == r then 1 else 0
  }

  ghost predicate Start(cfg: Config, s: Sys) {
    && Shape(cfg, s)
    && s.issued == s.buffer == s.current == s.seen == [] && s.model == []
    && s.dest == s.nextId == 0 && s.phase == Streaming
    && (forall r :: 0 <= r < cfg.mpiSize ==>
          s.inQ[r] == [] && s.itemsWhere[r] == 0 && s.replicas[r] == Replica([], 0, true, false, 0, 0))
    && (forall j :: 0 <= j < |s.threads| ==> s.threads[j].work == Receiving && s.threads[j].chan == [])
    && |s.threads| == cfg.nClassifiers * (cfg.mpiSize - 1)
    && (forall r :: 1 <= r < cfg.mpiSize ==> Sum(s.threads, OnRank(r)) == cfg.nClassifiers)
  }

  ghost function Next(cfg: Config, s: Sys, e: Event): (r: Sys)
    requires Shape(cfg, s)
    ensures Shape(cfg, r) && |r.threads| == |s.threads|
  {
    if Enabled(cfg, s, e) then Do(cfg, s, e) else s
  }

  /** The state after a schedule; events that are not possible are passed over, so every
      interleaving is some schedule. */
  ghost function Exec(cfg: Config, s: Sys, schedule: seq<Event>): (r: Sys)
    requires Shape(cfg, s)
    ensures Shape(cfg, r) && |r.threads| == |s.threads|
  {
    if |schedule| == 0 then s else Next(cfg, Exec(cfg, s, schedule[..|schedule| - 1]), schedule[|schedule| - 1])
  }
}
