/** The serial program's loop over its input (src/online-nd.c `main`). */
module Serial {
  import opened Points
  import opened Search
  import opened Unknowns
  import opened Labels
  import opened Novelty
  import opened Ledger
  import opened Sums
  import opened Sleep
  import opened Minas

  /** A parsed input line. Fields of a cluster line that the reader does not set hold anything. */
  datatype Line = ClusterLine(c: Cluster) | ExampleLine(x: Point) | OtherLine

  ghost predicate LinesDim(lines: seq<Line>, dim: nat) {
    forall i :: 0 <= i < |lines| ==>
      && (lines[i].ClusterLine? ==> |lines[i].c.center| == dim)
      && (lines[i].ExampleLine? ==> |lines[i].x| == dim)
  }

  /** How many of the first n lines are examples. */
  function Examples(lines: seq<Line>, n: nat): nat
    requires n <= |lines|
  {
    if n == 0 then 0 else Examples(lines, n - 1) + (if lines[n - 1].ExampleLine? then 1 else 0)
  }

  /** Input clusters arrive awake. */
  ghost predicate ArriveAwake(line: Line) {
    line.ClusterLine? ==> !line.c.isSleep
  }

  /** Input clusters do not carry a label just below '-', 'A' or 'a'. */
  ghost predicate LabelHarmless(line: Line) {
    line.ClusterLine? ==> line.c.tag !in {44, 64, 96}
  }

  /** Ids never run backwards, so no difference of ids wraps. */
  ghost predicate InOrder(s: MinasState)
    reads s
  {
    s.lastNDCheck <= s.currId <= s.nextId && s.lastForgetCheck == 0
  }

  /** A cluster line: a cluster the model does not have yet is added. */
  method StepCluster(s: MinasState, c: Cluster)
    requires s.Valid() && |c.center| == s.p.dim
    modifies s`model, s`nextLabel, s`carried, s`carriedHits
    ensures s.Valid() && s.carried == old(s.carried) && s.carriedHits == old(s.carriedHits)
    ensures |s.model| == |old(s.model)| + (if |old(s.model)| <= c.id then 1 else 0)
    ensures |old(s.model)| <= c.id ==>
      s.model == old(s.model) + [c.(nMatches := 0, nMisses := 0, latestMatchId := s.currId % 0x1_0000_0000)]
    ensures |old(s.model)| > c.id ==> s.model == old(s.model)
    ensures old(s.SleepOk()) && !c.isSleep ==> s.SleepOk()
    ensures !Reserved(old(s.nextLabel)) && c.tag !in {44, 64, 96} ==> !Reserved(s.nextLabel)
  {
    hide Sum;
    hide Reserved;
    if |s.model| <= c.id {
      if !Reserved(s.nextLabel) {
        CounterStaysUnreserved(s.nextLabel, c.tag);
      }
      var index := s.AddCluster(c.(nMatches := 0, nMisses := 0));
      var added := s.model[index].(latestMatchId := Trunc32(s.currId));
      SumUpdate(s.model, index, added, SEEN);
      SumUpdate(s.model, index, added, MATCHED);
      SumUpdate(s.model, index, added, ASLEEP);
      s.model := s.model[index := added];
    }
  }

  /** The clusters a model had are still there, at their places, but for counters and times. */
  ghost predicate KeepsClusters(was: seq<Cluster>, now: seq<Cluster>) {
    |was| <= |now| && forall i :: 0 <= i < |was| ==> SameKind(was[i], now[i])
  }

  /** At most the given cluster joined. */
  ghost predicate AddsAtMost(was: seq<Cluster>, now: seq<Cluster>, c: Cluster) {
    |now| <= |was| + 1 && forall i :: |was| <= i < |now| ==> SameKind(c, now[i])
  }

  /** What one example does to the model, its counters and the unknowns: first it is identified,
      then stale clusters go to sleep, then, if its label is the mark of unknowns, it is kept
      and may start a novelty round. */
  ghost predicate ExampleDone(p: Params, id: nat, x: Point, garbage: real, lastForgetCheck: nat,
                              model0: seq<Cluster>, sleep0: nat, label0: nat, check0: nat, us0: seq<Unknown>,
                              model: seq<Cluster>, sleep: nat, nextLabel: nat, check: nat, us: seq<Unknown>)
    requires |x| == p.dim && |model0| > 0 && ClustersDim(model0, p.dim)
  {
    var m := MatchOf(p, model0, id, x, Chosen(model0, x, garbage));
    var (model1, sleep1) := Identified(p, model0, sleep0, id, id, x, garbage);
    var (model2, sleep2) := Slept(p, model1, sleep1, id, lastForgetCheck);
    var grown := us0 + [Unknown(id, x)];
    if m.tag != UNKNOWN_LABEL then
      model == model2 && sleep == sleep2 && nextLabel == label0 && check == check0 && us == us0
    else if !RoundDue(p, |grown|, id, check0) then
      model == model2 && sleep == sleep2 && nextLabel == label0 && check == check0 && us == grown
    else
      && RoundDone(p, Restored(model2, sleep2, id), label0, check0, grown, model, nextLabel, us)
      && sleep == 0 && check == id
  }

  lemma RestoredKeeps(model: seq<Cluster>, sleepCounter: nat, currId: nat)
    ensures KeepsClusters(model, Restored(model, sleepCounter, currId))
  {
  }

  lemma IdentifiedKeeps(p: Params, model: seq<Cluster>, sleep: nat, id: nat, x: Point, garbage: real)
    requires |model| > 0 && ClustersDim(model, |x|)
    ensures KeepsClusters(model, Identified(p, model, sleep, id, id, x, garbage).0)
  {
    hide MatchOf;
    hide Chosen;
    hide FallsBack;
    hide Restored;
    RestoredKeeps(model, sleep, id);
  }

  lemma SleptKeeps(p: Params, model: seq<Cluster>, sleep: nat, id: nat, lastForgetCheck: nat)
    ensures KeepsClusters(model, Slept(p, model, sleep, id, lastForgetCheck).0)
  {
    DrowseCounts(p, model, id, sleep, 0);
  }

  lemma RoundKeeps(p: Params, base: seq<Cluster>, label0: nat, check0: nat, us0: seq<Unknown>,
                   model: seq<Cluster>, nextLabel: nat, us: seq<Unknown>)
    requires RoundDone(p, base, label0, check0, us0, model, nextLabel, us)
    ensures KeepsClusters(base, model)
  {
    hide RoundOf;
    hide Survivors;
  }

  /** Whatever an example does, the clusters stay. */
  lemma ExampleKeeps(p: Params, id: nat, x: Point, garbage: real, lastForgetCheck: nat,
                         model0: seq<Cluster>, sleep0: nat, label0: nat, check0: nat, us0: seq<Unknown>,
                         model: seq<Cluster>, sleep: nat, nextLabel: nat, check: nat, us: seq<Unknown>)
    requires |x| == p.dim && |model0| > 0 && ClustersDim(model0, p.dim)
    requires ExampleDone(p, id, x, garbage, lastForgetCheck, model0, sleep0, label0, check0, us0, model, sleep,
                         nextLabel, check, us)
    ensures KeepsClusters(model0, model)
  {
    hide Identified;
    hide Slept;
    hide RoundDone;
    hide Restored;
    hide MatchOf;
    var (model1, sleep1) := Identified(p, model0, sleep0, id, id, x, garbage);
    var (model2, sleep2) := Slept(p, model1, sleep1, id, lastForgetCheck);
    IdentifiedKeeps(p, model0, sleep0, id, x, garbage);
    SleptKeeps(p, model1, sleep1, id, lastForgetCheck);
    var base := Restored(model2, sleep2, id);
    RestoredKeeps(model2, sleep2, id);
    if RoundDone(p, base, label0, check0, us0 + [Unknown(id, x)], model, nextLabel, us) {
      RoundKeeps(p, base, label0, check0, us0 + [Unknown(id, x)], model, nextLabel, us);
    }
  }

  /** An example line: identify, sleep, and keep the example if it is unknown. */
  method StepExample(s: MinasState, sample: array<real>) returns (ok: bool, m: Match, ghost garbage: real)
    requires s.Valid() && sample.Length == s.p.dim && sample !in s.unknowns.rows && InOrder(s)
    modifies s, s.unknowns`size, s.unknowns.slots, s.unknowns.rows
    ensures s.Valid() && InOrder(s) && s.currId == old(s.nextId) && s.nextId == old(s.nextId) + 1
    ensures ok <==> |old(s.model)| >= s.p.k
    ensures s.classified == old(s.classified) + (if ok then 1 else 0)
    ensures s.matched == old(s.matched) + (if ok && m.isMatch then 1 else 0)
    ensures s.carriedHits - old(s.carriedHits) == s.carried - old(s.carried)
    ensures ok ==> m.pointId == old(s.nextId) && (!m.isMatch ==> m.tag == 45)
    ensures ok ==> ExampleDone(s.p, old(s.nextId), old(sample[..]), garbage, old(s.lastForgetCheck),
      old(s.model), old(s.sleepCounter), old(s.nextLabel), old(s.lastNDCheck), old(s.unknowns.Contents()),
      s.model, s.sleepCounter, s.nextLabel, s.lastNDCheck, s.unknowns.Contents())
    ensures ok && m.tag != 45 ==>
      && s.unknowns.Contents() == old(s.unknowns.Contents()) && |s.model| == |old(s.model)|
      && s.nextLabel == old(s.nextLabel) && s.lastNDCheck == old(s.lastNDCheck)
    ensures ok && m.tag == 45 && s.lastNDCheck != old(s.nextId) ==>
      s.unknowns.Contents() == old(s.unknowns.Contents()) + [Unknown(old(s.nextId), old(sample[..]))]
    ensures !ok ==> s.model == old(s.model) && s.unknowns.Contents() == old(s.unknowns.Contents())
    ensures old(s.SleepOk()) ==> s.SleepOk()
    ensures !Reserved(old(s.nextLabel)) ==> !Reserved(s.nextLabel) && (ok ==> AllNovel(s.p, s.model, |old(s.model)|))
  {
    hide D2;
    hide IsNearest;
    hide AwakeAnswers;
    hide OnlyTimesChanged;
    hide DozedUntil;
    hide LeftAt;
    hide Sum;
    hide Drowse;
    hide Slept;
    hide Identified;
    hide MatchOf;
    hide Chosen;
    hide RoundDone;
    hide Reserved;
    hide LabelsBelow;
    hide Novel;
    garbage := 0.0;
    m := Match(0, 0, false, 0.0, 0);
    var id := s.nextId;
    s.currId := id;
    s.nextId := s.nextId + 1;
    if |s.model| < s.p.k {
      ok := false;
      return;
    }
    ok := true;
    var minDist: real := *;
    garbage := minDist;
    m := s.Identify(id, sample[..], minDist);
    s.HandleSleep();
    if m.tag == UNKNOWN_LABEL {
      var news := s.HandleUnknown(id, sample);
    }
  }

  method FillSample(sample: array<real>, x: Point)
    requires sample.Length == |x|
    modifies sample
    ensures sample[..] == x
  {
    for d := 0 to |x|
      invariant forall e :: 0 <= e < d ==> sample[e] == x[e]
    {
      sample[d] := x[d];
    }
  }

  /** One input line. It fails only on an example that comes before k clusters did. */
  method Step(s: MinasState, sample: array<real>, line: Line) returns (ok: bool, answer: seq<Match>)
    requires s.Valid() && sample.Length == s.p.dim && sample !in s.unknowns.rows && InOrder(s)
    requires line.ClusterLine? ==> |line.c.center| == s.p.dim
    requires line.ExampleLine? ==> |line.x| == s.p.dim
    modifies s, s.unknowns`size, s.unknowns.slots, s.unknowns.rows, sample
    ensures s.Valid() && InOrder(s)
    ensures ok <==> line.ExampleLine? ==> |old(s.model)| >= s.p.k
    ensures s.classified == old(s.classified) + (if ok && line.ExampleLine? then 1 else 0)
    ensures s.nextId == old(s.nextId) + (if line.ExampleLine? then 1 else 0)
    ensures |answer| == (if ok && line.ExampleLine? then 1 else 0)
    ensures answer != [] ==> answer[0].pointId == old(s.nextId) && (!answer[0].isMatch ==> answer[0].tag == 45)
    ensures s.matched == old(s.matched) + (if answer != [] && answer[0].isMatch then 1 else 0)
    ensures s.carriedHits - old(s.carriedHits) == s.carried - old(s.carried)
    ensures !ok ==> s.model == old(s.model)
    ensures old(s.SleepOk()) && ArriveAwake(line) ==> s.SleepOk()
    ensures old(s.SleepOk()) && ok && line.ExampleLine? ==>
      ClustersDim(old(s.model), |line.x|) && NearestOf(old(s.model), true, line.x, |old(s.model)|) >= 0
    ensures KeepsClusters(old(s.model), s.model)
    ensures line.ClusterLine? ==> AddsAtMost(old(s.model), s.model, line.c)
    ensures !Reserved(old(s.nextLabel)) && LabelHarmless(line) ==> !Reserved(s.nextLabel)
    ensures line.OtherLine? ==> s.model == old(s.model)
    ensures !Reserved(old(s.nextLabel)) && ok && line.ExampleLine? ==> AllNovel(s.p, s.model, |old(s.model)|)
  {
    hide Sum;
    hide Novel;
    hide Reserved;
    hide LabelsBelow;
    hide ExampleDone;
    ok, answer := true, [];
    match line
    case ClusterLine(c) =>
      StepCluster(s, c);
    case ExampleLine(x) =>
      FillSample(sample, x);
      if s.SleepOk() && |s.model| > 0 {
        SomebodyAwake(s.model, s.sleepCounter, x);
      }
      ghost var garbage;
      ghost var m0, sl0, l0, c0, us0 := s.model, s.sleepCounter, s.nextLabel, s.lastNDCheck, s.unknowns.Contents();
      var m;
      ok, m, garbage := StepExample(s, sample);
      if ok {
        answer := [m];
        ExampleKeeps(s.p, s.currId, x, garbage, s.lastForgetCheck, m0, sl0, l0, c0, us0,
                         s.model, s.sleepCounter, s.nextLabel, s.lastNDCheck, s.unknowns.Contents());
      }
    case OtherLine =>
  }

  /** Where each cluster of a model comes from: it is that of a line of the input, or (-1) a novelty
      round's, and then it extends the nearest cluster before it and has its label, or it is a
      novelty with a label that no cluster before it has, and that is no letter and no mark. */
  ghost predicate Origins(p: Params, lines: seq<Line>, done: nat, from: seq<int>, model: seq<Cluster>)
    requires done <= |lines|
  {
    |from| == |model| && ClustersDim(model, p.dim) &&
    forall i :: 0 <= i < |from| ==>
      if from[i] >= 0 then from[i] < done && lines[from[i]].ClusterLine? && SameKind(lines[from[i]].c, model[i])
      else i > 0 && Novel(p, model, i)
  }

  /** The origins after one more line. */
  ghost function OriginsAfter(from: seq<int>, size: nat, done: nat, line: Line): (r: seq<int>)
    requires |from| <= size
    ensures |r| == size
  {
    from + seq(size - |from|, _ => if line.ClusterLine? then done else -1)
  }

  lemma OriginsStep(p: Params, lines: seq<Line>, done: nat, from: seq<int>, was: seq<Cluster>, now: seq<Cluster>)
    requires done < |lines| && Origins(p, lines, done, from, was) && KeepsClusters(was, now) && ClustersDim(now, p.dim)
    requires lines[done].ClusterLine? ==> AddsAtMost(was, now, lines[done].c)
    requires lines[done].ExampleLine? ==> AllNovel(p, now, |was|)
    requires lines[done].OtherLine? ==> |was| == |now|
    ensures Origins(p, lines, done + 1, OriginsAfter(from, |now|, done, lines[done]), now)
  {
    hide Novel;
    var from' := OriginsAfter(from, |now|, done, lines[done]);
    forall i | 0 <= i < |from'| && from'[i] < 0 ensures i > 0 && Novel(p, now, i) {
      if i < |was| {
        NovelKept(p, was, now, i);
      }
    }
  }

  lemma NoOrigins(p: Params, lines: seq<Line>)
    ensures Origins(p, lines, 0, [], [])
  {
  }

  lemma OriginsKept(p: Params, lines: seq<Line>, done: nat, from: seq<int>, was: seq<Cluster>, now: seq<Cluster>)
    requires done <= |lines| && Origins(p, lines, done, from, was)
    requires KeepsClusters(was, now) && |was| == |now| && ClustersDim(now, p.dim)
    ensures Origins(p, lines, done, from, now)
  {
    hide Novel;
    forall i | 0 <= i < |from| && from[i] < 0 ensures i > 0 && Novel(p, now, i) {
      NovelKept(p, was, now, i);
    }
  }

  /** 1 for an answer that is a match. */
  const HIT: Match -> nat := (m: Match) => if m.isMatch then 1 else 0

  /** The answers so far: numbered in order, and as many and as many hits as the counters say. */
  ghost predicate Answered(answers: seq<Match>, classified: nat, matched: nat) {
    && |answers| == classified && Sum(answers, HIT) == matched
    && forall q :: 0 <= q < |answers| ==> answers[q].pointId == q && (!answers[q].isMatch ==> answers[q].tag == 45)
  }

  lemma NoAnswers()
    ensures Answered([], 0, 0)
  {
  }

  lemma AnswerOne(answers: seq<Match>, classified: nat, matched: nat, answer: seq<Match>)
    requires Answered(answers, classified, matched) && |answer| <= 1
    requires answer != [] ==> answer[0].pointId == classified && (!answer[0].isMatch ==> answer[0].tag == 45)
    ensures Answered(answers + answer, classified + |answer|,
                     matched + (if answer != [] && answer[0].isMatch then 1 else 0))
  {
    if answer == [] {
      assert answers + answer == answers;
    } else {
      assert answer == [answer[0]];
      SumAppend(answers, answer[0], HIT);
    }
  }

  lemma MissesLeft(s: MinasState)
    requires s.LedgerOk() && s.carried == s.carriedHits
    ensures Sum(s.model, MATCHED) == s.matched + s.carried
    ensures Sum(s.model, MISSED) == s.classified - s.matched
  {
    SumPlus(s.model, MATCHED, MISSED, SEEN);
  }

  /** The loop of `main` over the lines. */
  method ReadLines(s: MinasState, sample: array<real>, lines: seq<Line>)
    returns (ok: bool, done: nat, answers: seq<Match>, ghost from: seq<int>)
    requires s.Valid() && InOrder(s) && LinesDim(lines, s.p.dim)
    requires sample.Length == s.p.dim && sample !in s.unknowns.rows
    requires s.model == [] && s.SleepOk() && s.classified == s.nextId == s.matched == s.carried == s.carriedHits == 0
    requires !Reserved(s.nextLabel)
    modifies s, s.unknowns`size, s.unknowns.slots, s.unknowns.rows, sample
    ensures s.Valid() && InOrder(s)
    ensures done <= |lines| && (ok <==> done == |lines|)
    ensures !ok ==> lines[done].ExampleLine? && |s.model| < s.p.k
    ensures s.classified == Examples(lines, done) && s.carriedHits == s.carried
    ensures Answered(answers, s.classified, s.matched)
    ensures (forall i :: 0 <= i < done ==> ArriveAwake(lines[i])) ==> s.SleepOk()
    ensures (forall i :: 0 <= i < done ==> LabelHarmless(lines[i])) ==>
              !Reserved(s.nextLabel) && Origins(s.p, lines, done, from, s.model)
  {
    hide Sum;
    hide Answered;
    hide LabelsBelow;
    hide Origins;
    hide OriginsAfter;
    hide AddsAtMost;
    hide AllNovel;
    hide Reserved;
    ok, done, answers, from := true, 0, [], [];
    NoAnswers();
    NoOrigins(s.p, lines);
    while done < |lines|
      invariant s.Valid() && InOrder(s)
      invariant ok && done <= |lines|
      invariant s.classified == s.nextId == Examples(lines, done) && s.carriedHits == s.carried
      invariant Answered(answers, s.classified, s.matched)
      invariant (forall i :: 0 <= i < done ==> ArriveAwake(lines[i])) ==> s.SleepOk()
      invariant |from| == |s.model|
      invariant (forall i :: 0 <= i < done ==> LabelHarmless(lines[i])) ==>
                  !Reserved(s.nextLabel) && Origins(s.p, lines, done, from, s.model)
    {
      ghost var was := s.model;
      ghost var classified, matched := s.classified, s.matched;
      var answer;
      ok, answer := Step(s, sample, lines[done]);
      if !ok {
        return;
      }
      if forall i :: 0 <= i < done + 1 ==> LabelHarmless(lines[i]) {
        OriginsStep(s.p, lines, done, from, was, s.model);
      }
      from := OriginsAfter(from, |s.model|, done, lines[done]);
      AnswerOne(answers, classified, matched, answer);
      answers := answers + answer;
      done := done + 1;
    }
  }

  /** The whole serial run. `done` lines were processed; the run stops early exactly at an example
      that comes before k clusters. Whatever the input and whatever `minDist` held at each search:
      the unknown buffer never overflows; all hits of clusters are examples answered as matches and
      the matches that novelties carried, and all misses are the other examples; labels stay below
      the counter; and with input clusters that arrive awake the sleep accounting holds and ends
      with all clusters awake. */
  method Run(p: Params, lines: seq<Line>)
    returns (s: MinasState, ok: bool, done: nat, answers: seq<Match>, ghost from: seq<int>)
    requires p.Valid() && LinesDim(lines, p.dim)
    ensures s.Valid() && s.p == p && InOrder(s)
    ensures done <= |lines| && (ok <==> done == |lines|)
    ensures !ok ==> lines[done].ExampleLine? && |s.model| < p.k
    ensures |answers| == Examples(lines, done)
    ensures forall q :: 0 <= q < |answers| ==> answers[q].pointId == q && (!answers[q].isMatch ==> answers[q].tag == 45)
    ensures Sum(s.model, MATCHED) == Sum(answers, HIT) + s.carried
    ensures Sum(s.model, MISSED) == |answers| - Sum(answers, HIT)
    ensures s.unknowns.size < p.unknownsMax
    ensures (forall i :: 0 <= i < done ==> ArriveAwake(lines[i])) ==>
              s.SleepOk() && (ok ==> forall i :: 0 <= i < |s.model| ==> !s.model[i].isSleep)
    ensures (forall i :: 0 <= i < done ==> LabelHarmless(lines[i])) ==>
              !Reserved(s.nextLabel) && Origins(p, lines, done, from, s.model)
  {
    hide Sum;
    hide LabelsBelow;
    hide Origins;
    s := new MinasState(p);
    var sample := new real[p.dim];
    ok, done, answers, from := ReadLines(s, sample, lines);
    MissesLeft(s);
    if !ok {
      return;
    }
    ghost var was := s.model;
    s.RestoreSleep();
    MissesLeft(s);
    if Origins(p, lines, done, from, was) {
      OriginsKept(p, lines, done, from, was, s.model);
    }
  }
}
