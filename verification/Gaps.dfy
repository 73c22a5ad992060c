/** Where a gap is reachable, a run of the pipeline in which it ends a rank with its work undone. */
module Gaps {
  import opened Sums
  import opened Ranks
  import opened Labels
  import opened Pipeline
  import opened Delivery
  import opened Shutdown
  import opened Termination
  import opened Progress

  /** Receivers come to a cluster out of place when no novelty comes. */
  predicate MeetsGap(lines: seq<Line>, size: nat) {
    |lines| > 0 &&
    match lines[0]
    case ClusterLine(id, tag) =>
      if id < size then MeetsGap(lines[1..], size)
      else tag != EOS_LABEL && (id != size || MeetsGap(lines[1..], size + 1))
    case _ => MeetsGap(lines[1..], size)
  }

  /** Growing once, by enough, passes over all the marks. */
  lemma {:induction false} GrowsOnce(lines: seq<Line>, size: nat) returns (m: nat)
    requires Overrun(lines, size)
    ensures m >= size && MeetsGap(lines, m)
  {
    match lines[0]
    case ClusterLine(id, tag) =>
      if id < size {
        m := GrowsOnce(lines[1..], size);
      } else if tag == EOS_LABEL {
        m := GrowsOnce(lines[1..], id + 1);
      } else if id != size {
        m := size;
      } else {
        m := GrowsOnce(lines[1..], size + 1);
      }
    case _ => m := GrowsOnce(lines[1..], size);
  }

  /** The clusters are in place from a size on, and none is marked. */
  ghost predicate Straight(heads: seq<Head>, size: nat) {
    forall i :: 0 <= i < |heads| ==> heads[i].id == size + i && heads[i].tag != EOS_LABEL
  }

  /** The first of the clusters that is out of place comes before any mark. */
  ghost predicate Crooked(heads: seq<Head>, size: nat, f: nat) {
    f < |heads| && Straight(heads[..f], size) && heads[f].tag != EOS_LABEL && heads[f].id != size + f
  }

  lemma {:induction false} GapAt(lines: seq<Line>, size: nat) returns (f: nat)
    requires MeetsGap(lines, size)
    ensures Crooked(Accepted(lines, size), size, f)
  {
    match lines[0]
    case ClusterLine(id, tag) =>
      if id < size {
        f := GapAt(lines[1..], size);
      } else if id != size {
        f := 0;
      } else {
        var g := GapAt(lines[1..], size + 1);
        f := g + 1;
        var a, b := Accepted(lines, size), Accepted(lines[1..], size + 1);
        assert forall i :: 0 < i < |a| ==> a[i] == b[i - 1];
        assert forall i :: 0 < i < f ==> a[..f][i] == b[..g][i - 1];
      }
    case _ => f := GapAt(lines[1..], size);
  }

  /** Novelties before line i, that take the model to m clusters, lead to a gap. */
  ghost predicate GapFrom(cfg: Config, lines: seq<Line>, n: nat, e: nat, i: nat, m: nat) {
    && i <= |lines| && m >= n + |Accepted(lines[..i], n)| && MeetsGap(lines[i..], m)
    && Straight(Accepted(lines[..i], n), n)
    && Growable(cfg, n + |Accepted(lines[..i], n)|, e + Examples(lines[..i]))
  }

  lemma OneLineMore(cfg: Config, lines: seq<Line>, n: nat, e: nat, i: nat, m: nat)
    requires |lines| > 0
    requires
      match lines[0]
      case ClusterLine(id, tag) =>
        if id < n then GapFrom(cfg, lines[1..], n, e, i, m)
        else tag != EOS_LABEL && id == n && GapFrom(cfg, lines[1..], n + 1, e, i, m)
      case ExampleLine => GapFrom(cfg, lines[1..], n, e + 1, i, m)
      case OtherLine => GapFrom(cfg, lines[1..], n, e, i, m)
    ensures GapFrom(cfg, lines, n, e, i + 1, m)
  {
    var front := lines[..i + 1];
    assert front[0] == lines[0] && front[1..] == lines[1..][..i] && lines[1..][i..] == lines[i + 1..];
    var a := Accepted(front, n);
    if lines[0].ClusterLine? && lines[0].id == n {
      var b := Accepted(front[1..], n + 1);
      assert a == [Head(n, lines[0].tag)] + b;
      assert forall q :: 0 < q < |a| ==> a[q] == b[q - 1];
    }
  }

  lemma GapHere(cfg: Config, lines: seq<Line>, n: nat, e: nat, m: nat)
    requires MeetsGap(lines, m) && m >= n && Growable(cfg, n, e)
    ensures GapFrom(cfg, lines, n, e, 0, m)
  {
    assert lines[0..] == lines && lines[..0] == [];
  }

  /** A reachable gap is met without novelties, or after novelties at one place. */
  lemma {:induction false} GapSplits(cfg: Config, lines: seq<Line>, n: nat, e: nat) returns (i: nat, m: nat)
    requires GapReachable(cfg, lines, n, e)
    ensures MeetsGap(lines, n) || GapFrom(cfg, lines, n, e, i, m)
  {
    hide GapFrom;
    i, m := 0, n;
    match lines[0] {
      case ClusterLine(id, tag) =>
        if id < n {
          i, m := GapSplits(cfg, lines[1..], n, e);
        } else if tag == EOS_LABEL {
          m := GrowsOnce(lines[1..], id + 1);
          GapHere(cfg, lines, n, e, m);
          return;
        } else if id == n {
          i, m := GapSplits(cfg, lines[1..], n + 1, e);
        }
      case ExampleLine =>
        i, m := GapSplits(cfg, lines[1..], n, e + 1);
      case OtherLine =>
        i, m := GapSplits(cfg, lines[1..], n, e);
    }
    if !MeetsGap(lines, n) {
      OneLineMore(cfg, lines, n, e, i, m);
      i := i + 1;
    }
  }

  /** The sampler read n lines more, and nobody else did anything. */
  ghost predicate ReadTo(t: Sys, u: Sys, n: nat) {
    && n <= |t.input| && u.input == t.input[n..] && u.phase == t.phase
    && u.replicas == t.replicas && u.threads == t.threads && u.current == t.current && u.seen == t.seen
    && u.model == t.model + Accepted(t.input[..n], |t.model|)
    && u.nextId == t.nextId + Examples(t.input[..n])
    && |u.inQ| == |t.inQ| == |u.itemsWhere| == |t.itemsWhere|
    && forall r :: 0 <= r < |t.inQ| ==> |u.inQ[r]| + t.itemsWhere[r] == |t.inQ[r]| + u.itemsWhere[r]
  }

  lemma ReadOne(cfg: Config, t: Sys)
    requires Shape(cfg, t) && Enabled(cfg, t, Read)
    ensures ReadTo(t, Do(cfg, t, Read), 1)
  {
    var line := t.input[..1];
    assert line[1..] == [] && line[0] == t.input[0];
    assert Accepted([], |t.model| + 1) == Accepted([], |t.model|) == [];
    if line[0].ClusterLine? && |t.model| <= line[0].id {
      assert Accepted(line, |t.model|) == [Head(line[0].id, line[0].tag)] + Accepted(line[1..], |t.model| + 1);
    } else {
      assert Accepted(line, |t.model|) == Accepted(line[1..], |t.model|);
    }
    assert Examples(line) == (if line[0].ExampleLine? then 1 else 0) + Examples(line[1..]);
  }

  lemma FirstLine(lines: seq<Line>, size: nat)
    requires |lines| > 0
    ensures var a := Accepted(lines[..1], size);
      Accepted(lines, size) == a + Accepted(lines[1..], size + |a|)
    ensures Examples(lines) == Examples(lines[..1]) + Examples(lines[1..])
  {
    assert lines[..1][0] == lines[0] && lines[..1][1..] == [];
    assert Accepted([], size) == Accepted([], size + 1) == [];
  }

  lemma ReadOn(t: Sys, u: Sys, v: Sys, n: nat)
    requires ReadTo(t, u, 1) && ReadTo(u, v, n)
    ensures ReadTo(t, v, n + 1)
  {
    hide Accepted;
    hide Examples;
    var front := t.input[..n + 1];
    FirstLine(front, |t.model|);
    assert front[..1] == t.input[..1] && front[1..] == u.input[..n];
    assert t.input[1..][n..] == t.input[n + 1..];
  }

  lemma ReadNone(t: Sys)
    requires |t.inQ| == |t.itemsWhere|
    ensures ReadTo(t, t, 0)
  {
    assert t.input[..0] == [] && t.input[0..] == t.input;
    assert Accepted([], |t.model|) == [] && t.model + [] == t.model;
  }

  lemma ReadKeeps(t: Sys, u: Sys, n: nat)
    requires ReadTo(t, u, n)
    ensures n <= |t.input| && u.phase == t.phase && |u.input| == |t.input| - n
  {
  }

  lemma {:induction false} ReadLines(cfg: Config, s: Sys, schedule: seq<Event>, n: nat) returns (m: seq<Event>)
    requires Start(cfg, s) && Exec(cfg, s, schedule).phase.Streaming? && n <= |Exec(cfg, s, schedule).input|
    ensures schedule <= m && ReadTo(Exec(cfg, s, schedule), Exec(cfg, s, m), n)
    decreases n
  {
    hide Exec;
    hide ReadTo;
    var t := Exec(cfg, s, schedule);
    if n == 0 {
      m := schedule;
      ReadNone(t);
    } else {
      ExecSnoc(cfg, s, schedule, Read);
      var u := Exec(cfg, s, schedule + [Read]);
      ReadOne(cfg, t);
      ReadKeeps(t, u, 1);
      m := ReadLines(cfg, s, schedule + [Read], n - 1);
      ReadOn(t, u, Exec(cfg, s, m), n - 1);
    }
  }

  /** Only a rank's receiver did anything, and it can do no more. */
  ghost predicate HeardOut(cfg: Config, t: Sys, u: Sys, r: nat)
    requires Shape(cfg, t) && Shape(cfg, u)
  {
    && 1 <= r < cfg.mpiSize && u == t.(replicas := t.replicas[r := u.replicas[r]])
    && !Enabled(cfg, u, Hear(r)) && !Enabled(cfg, u, Post(r))
  }

  lemma {:induction false} HearOut(cfg: Config, s: Sys, schedule: seq<Event>, r: nat) returns (m: seq<Event>)
    requires Start(cfg, s) && 1 <= r < cfg.mpiSize
    ensures schedule <= m && HeardOut(cfg, Exec(cfg, s, schedule), Exec(cfg, s, m), r)
    decreases Unheard(|Exec(cfg, s, schedule).model|)(Exec(cfg, s, schedule).replicas[r]),
              Exec(cfg, s, schedule).replicas[r].posts
  {
    hide Exec;
    var t := Exec(cfg, s, schedule);
    if Enabled(cfg, t, Hear(r)) {
      ExecSnoc(cfg, s, schedule, Hear(r));
      m := HearOut(cfg, s, schedule + [Hear(r)], r);
    } else if Enabled(cfg, t, Post(r)) {
      ExecSnoc(cfg, s, schedule, Post(r));
      m := HearOut(cfg, s, schedule + [Post(r)], r);
    } else {
      m := schedule;
    }
  }

  /** The thread took its packet for unknowns, and sent it on; nobody else did anything. */
  ghost predicate SentOn(t: Sys, u: Sys, j: nat) {
    && j < |t.threads| && |u.threads| == |t.threads|
    && u == t.(threads := t.threads[j := u.threads[j]])
    && u.threads[j].rank == t.threads[j].rank && u.threads[j].work.Receiving?
    && |u.threads[j].chan| == |t.threads[j].chan| + 1 && t.threads[j].chan <= u.threads[j].chan
    && var p := u.threads[j].chan[|t.threads[j].chan|];
       |p| > 0 && forall i :: 0 <= i < |p| ==> p[i].tag == UNKNOWN_LABEL
  }

  ghost predicate CanClassify(cfg: Config, t: Sys, j: nat)
    requires Shape(cfg, t)
  {
    && j < |t.threads| && Alive(t, j) && Busy(t.threads[j].work) && |t.replicas[t.threads[j].rank].known| >= cfg.k
    && (forall i :: 0 <= i < |t.threads[j].work.packet| ==> !IsMark(t.threads[j].work.packet[i]))
    && (forall i :: 0 <= i < |t.threads[j].work.out| ==> t.threads[j].work.out[i].tag == UNKNOWN_LABEL)
  }

  lemma {:induction false} SendOn(cfg: Config, s: Sys, schedule: seq<Event>, j: nat) returns (m: seq<Event>)
    requires Start(cfg, s) && CanClassify(cfg, Exec(cfg, s, schedule), j)
    ensures schedule <= m && SentOn(Exec(cfg, s, schedule), Exec(cfg, s, m), j)
    decreases |Exec(cfg, s, schedule).threads[j].work.packet| - Exec(cfg, s, schedule).threads[j].work.pos
  {
    hide Exec;
    var t, e := Exec(cfg, s, schedule), Step(j, UNKNOWN_LABEL);
    ExecSnoc(cfg, s, schedule, e);
    m := schedule + [e];
    if t.threads[j].work.pos + 1 < |t.threads[j].work.packet| {
      m := SendOn(cfg, s, m, j);
    }
  }

  lemma {:induction false} SomeOnRank(threads: seq<Thread>, r: nat) returns (j: nat)
    requires Sum(threads, OnRank(r)) > 0
    ensures j < |threads| && threads[j].rank == r
  {
    if threads[|threads| - 1].rank == r {
      j := |threads| - 1;
    } else {
      j := SomeOnRank(threads[..|threads| - 1], r);
    }
  }

  /** A rank whose receiver heard out a model in place knows all of it. */
  lemma KnowsAll(cfg: Config, t: Sys, u: Sys, r: nat)
    requires Shape(cfg, t) && Inv(cfg, u) && HeardOut(cfg, t, u, r) && Straight(u.model, 0)
    ensures !u.replicas[r].dead && |u.replicas[r].known| == |u.model|
  {
    hide SamplerOk;
    hide RanksOk;
    hide ModelsOk;
    hide ThreadsOk;
    hide DetectorOk;
    KnowsPart(cfg, u, r);
  }

  /** After a whole packet of examples was read, and nothing else done, some rank has a packet of
      them in its queue. */
  lemma PacketOut(cfg: Config, s: Sys, t: Sys, i: nat) returns (r: nat)
    requires Start(cfg, s) && Inv(cfg, t) && ReadTo(s, t, i)
    requires cfg.unset != EOS_LABEL && t.nextId >= cfg.packetSize
    ensures 1 <= r < cfg.mpiSize && |t.inQ[r]| > 0 && |t.inQ[r][0]| > 0
    ensures forall q :: 0 <= q < |t.inQ[r][0]| ==> !IsMark(t.inQ[r][0][q])
  {
    hide Sum;
    r :| 1 <= r < |t.itemsWhere| && t.itemsWhere[r] > 0;
    assert |s.inQ[r]| == 0;
    assert RankOk(cfg, t, r);
    NoneEnd(t.inQ[r]);
    assert PacketOk(cfg, DataFlows(cfg, t), t.inQ[r][0]);
  }

  /** What a run that brings novelties leaves: the input and the sampler's phase as they were, the
      model larger, and a thread of the rank that did the work ready for more. */
  ghost predicate Grown(t: Sys, u: Sys, found: seq<nat>, j: nat) {
    && u.input == t.input && u.phase == t.phase && u.model == t.model + Joined(found, |t.model|)
    && j < |u.threads| && u.threads[j].work.Receiving?
  }

  /** While only the sampler worked, every thread of a rank is free. */
  lemma FreeThread(cfg: Config, s: Sys, t: Sys, i: nat, r: nat) returns (j: nat)
    requires Start(cfg, s) && ReadTo(s, t, i) && 1 <= r < cfg.mpiSize
    ensures j < |t.threads| && t.threads[j].rank == r && t.threads[j].work.Receiving? && t.threads[j].chan == []
    ensures t.current == []
  {
    hide Sum;
    j := SomeOnRank(t.threads, r);
  }

  lemma SentIsSeen(cfg: Config, s: Sys, t: Sys, i: nat, u: Sys)
    requires Start(cfg, s) && ReadTo(s, t, i) && Shape(cfg, u)
    requires u.seen == t.seen && |u.threads| == |s.threads| > 0
    ensures !Finished(u)
  {
  }

  /** One packet of examples, all classified as unknown, and novelties for the first of them. */
  lemma BringNovelties(cfg: Config, s: Sys, schedule: seq<Event>, i: nat, found: seq<nat>)
    returns (m: seq<Event>, j: nat)
    requires Start(cfg, s) && ReadTo(s, Exec(cfg, s, schedule), i)
    requires var t := Exec(cfg, s, schedule); Growable(cfg, |t.model|, t.nextId) && Straight(t.model, 0)
    ensures Grown(Exec(cfg, s, schedule), Exec(cfg, s, m), found, j)
  {
    hide Exec;
    hide Inv;
    hide ReadTo;
    hide Straight;
    var t := Exec(cfg, s, schedule);
    EveryRun(cfg, s, schedule);
    var r := PacketOut(cfg, s, t, i);
    m := HearOut(cfg, s, schedule, r);
    var u := Exec(cfg, s, m);
    EveryRun(cfg, s, m);
    KnowsAll(cfg, t, u, r);
    j := FreeThread(cfg, s, t, i, r);
    ExecSnoc(cfg, s, m, Recv(j));
    m := m + [Recv(j)];
    m := SendOn(cfg, s, m, j);
    SentIsSeen(cfg, s, t, i, Exec(cfg, s, m));
    assert Exec(cfg, s, m).threads[j].chan[0][0].tag == UNKNOWN_LABEL;
    ExecSnoc(cfg, s, m, DetRecv(j));
    m := m + [DetRecv(j)];
    ExecSnoc(cfg, s, m, DetItem(found));
    m := m + [DetItem(found)];
  }

  /** A receiver that heard out a model whose first misfit is an id out of place ended its rank. */
  lemma DiesThere(cfg: Config, t: Sys, u: Sys, r: nat, f: nat)
    requires Shape(cfg, t) && Inv(cfg, u) && HeardOut(cfg, t, u, r) && Crooked(u.model, 0, f)
    ensures u.replicas[r].dead
  {
    hide SamplerOk;
    hide RanksOk;
    hide ModelsOk;
    hide ThreadsOk;
    hide DetectorOk;
    KnowsPart(cfg, u, r);
    var known := u.replicas[r].known;
    assert forall i :: 0 <= i < f ==> u.model[i] == u.model[..f][i];
    assert forall i :: 0 <= i < |known| ==> u.model[i].id == i;
    assert |known| <= f;
  }

  /** Straight so far, and crooked from there on: crooked as a whole. */
  lemma CrookedBehind(front: seq<Head>, heads: seq<Head>, f: nat)
    requires Straight(front, 0) && Crooked(heads, |front|, f)
    ensures Crooked(front + heads, 0, |front| + f)
  {
    var all := front + heads;
    assert all[|front| + f] == heads[f];
    forall i | 0 <= i < |front| + f ensures all[i].id == i && all[i].tag != EOS_LABEL {
      if i >= |front| {
        assert all[i] == heads[..f][i - |front|];
      }
    }
  }

  lemma NoveltiesStraight(model: seq<Head>, n: nat)
    requires Straight(model, 0)
    ensures Straight(model + Joined(seq(n, _ => 0), |model|), 0)
  {
  }

  /** The sampler reads what is left, and the receiver of a rank hears all there is: the rank is
      ended. */
  lemma RunIntoGap(cfg: Config, s: Sys, schedule: seq<Event>, j: nat) returns (m: seq<Event>)
    requires Start(cfg, s)
    requires var t := Exec(cfg, s, schedule);
      && t.phase.Streaming? && Straight(t.model, 0) && MeetsGap(t.input, |t.model|)
      && j < |t.threads| && t.threads[j].work.Receiving?
    ensures var u := Exec(cfg, s, m); j < |u.threads| && !Alive(u, j) && u.threads[j].work.Receiving?
  {
    hide Exec;
    hide Inv;
    hide Straight;
    hide Crooked;
    var t := Exec(cfg, s, schedule);
    var f := GapAt(t.input, |t.model|);
    CrookedBehind(t.model, Accepted(t.input, |t.model|), f);
    var m1 := ReadLines(cfg, s, schedule, |t.input|);
    assert t.input[..|t.input|] == t.input;
    var u := Exec(cfg, s, m1);
    m := HearOut(cfg, s, m1, u.threads[j].rank);
    EveryRun(cfg, s, m);
    DiesThere(cfg, u, Exec(cfg, s, m), u.threads[j].rank, |t.model| + f);
  }

  lemma ExecNone(cfg: Config, s: Sys)
    requires Shape(cfg, s)
    ensures Exec(cfg, s, []) == s
  {
  }

  /** Where a gap is reachable, some run ends a rank while a thread of it has not ended. */
  lemma GapRun(cfg: Config, s: Sys) returns (m: seq<Event>, j: nat)
    requires Start(cfg, s) && GapReachable(cfg, s.input, 0, 0)
    ensures var u := Exec(cfg, s, m); j < |u.threads| && !Alive(u, j) && u.threads[j].work.Receiving?
  {
    hide Exec;
    hide GapReachable;
    hide MeetsGap;
    hide Growable;
    var i, size := GapSplits(cfg, s.input, 0, 0);
    ExecNone(cfg, s);
    if MeetsGap(s.input, 0) {
      ReadNone(s);
      j := FreeThread(cfg, s, s, 0, 1);
      m := RunIntoGap(cfg, s, [], j);
    } else {
      var m1 := ReadLines(cfg, s, [], i);
      var t := Exec(cfg, s, m1);
      var found := seq(size - |t.model|, _ => 0);
      m1, j := BringNovelties(cfg, s, m1, i, found);
      NoveltiesStraight(t.model, size - |t.model|);
      m := RunIntoGap(cfg, s, m1, j);
    }
  }

  /** A thread of a rank that was ended stays as it is. */
  lemma StaysFrozen(cfg: Config, s: Sys, e: Event, j: nat)
    requires Shape(cfg, s) && j < |s.threads| && !Alive(s, j) && s.threads[j].work.Receiving?
    ensures var t := Next(cfg, s, e); j < |t.threads| && !Alive(t, j) && t.threads[j].work.Receiving?
  {
  }

  lemma {:induction false} FrozenOn(cfg: Config, s: Sys, schedule: seq<Event>, m: seq<Event>, j: nat)
    requires Start(cfg, s) && schedule <= m
    requires var t := Exec(cfg, s, schedule); j < |t.threads| && !Alive(t, j) && t.threads[j].work.Receiving?
    ensures var t := Exec(cfg, s, m); j < |t.threads| && !Alive(t, j) && t.threads[j].work.Receiving?
  {
    hide Next;
    if |m| > |schedule| {
      FrozenOn(cfg, s, schedule, m[..|m| - 1], j);
      StaysFrozen(cfg, Exec(cfg, s, m[..|m| - 1]), m[|m| - 1], j);
    } else {
      assert m == schedule;
    }
  }

  /** Where a gap is reachable, some run that can go no further never finishes. */
  lemma GapHangs(cfg: Config, s: Sys) returns (m: seq<Event>)
    requires Start(cfg, s) && GapReachable(cfg, s.input, 0, 0)
    ensures Stuck(cfg, Exec(cfg, s, m)) && !Finished(Exec(cfg, s, m))
  {
    hide Exec;
    hide Inv;
    hide Finished;
    hide GapReachable;
    var m1, j := GapRun(cfg, s);
    m := Maximal(cfg, s, m1);
    FrozenOn(cfg, s, m1, m, j);
    EveryRun(cfg, s, m);
    FinishedIsGone(cfg, Exec(cfg, s, m));
  }
}
