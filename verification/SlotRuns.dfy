/** Whole runs of the older distributed program's slot table: they end, and exactly when they end
    with every example done. The sampler that waits for a slot is also the reader of the clusters
    the ranks wait for. */
module SlotRuns {
  import opened Sums
  import opened Ranks
  import opened Labels
  import opened Slots

  function Examples(lines: seq<Line>): nat {
    if |lines| == 0 then 0 else (if lines[0].ExampleLine? then 1 else 0) + Examples(lines[1..])
  }

  /** The labels of the input clusters. */
  function Clusters(lines: seq<Line>): seq<nat> {
    if |lines| == 0 then []
    else if lines[0].ClusterLine? then [lines[0].tag] + Clusters(lines[1..])
    else Clusters(lines[1..])
  }

  /** How many examples come before the k-th cluster. */
  function EarlyExamples(lines: seq<Line>, k: nat): nat {
    if |lines| == 0 || k == 0 then 0
    else if lines[0].ClusterLine? then EarlyExamples(lines[1..], k - 1)
    else 1 + EarlyExamples(lines[1..], k)
  }

  /** The input can be served: it has no example, or it brings k clusters with no mark among the
      first k, and no more examples before the k-th than there are slots. */
  predicate Servable(lines: seq<Line>, k: nat, size: nat) {
    Examples(lines) == 0
    || (|Clusters(lines)| >= k && (forall i :: 0 <= i < k ==> Clusters(lines)[i] != EOS_LABEL)
        && EarlyExamples(lines, k) <= size)
  }

  /** The sampler holds an example that has no number yet. */
  function Pending(sampler: Sampler): nat {
    if sampler.Ready? || sampler.Waiting? || sampler.Claimed? then 1 else 0
  }

  function Used(s: Table): nat {
    s.nextId + (if s.sampler.Claimed? then 1 else 0)
  }

  /** No rank has a complete model. */
  ghost predicate NoneComplete(s: Table) {
    forall r :: 0 <= r < |s.ranks| ==> |s.ranks[r].known| < s.k
  }

  /** No example was answered. */
  ghost predicate Unanswered(s: Table) {
    s.done == {} && s.back == {} && s.detector.Listening? && s.tokens == 0
  }

  /** Slots were taken one after the other, and none was released. */
  ghost predicate InOrder(n: nat, s: Table) {
    && Used(s) <= |s.slots|
    && (forall i :: 0 <= i < |s.slots| ==> s.slots[i] < n && (s.slots[i] != 0 <==> i < Used(s)))
    && (s.sampler.Waiting? ==> Used(s) == |s.slots|)
  }

  /** The broadcasts begin with the first k input clusters; before the k-th, slots are in order, and
      as many examples came before it as have a slot or wait for one. */
  ghost predicate Follows(n: nat, lines: seq<Line>, s: Table) {
    if |s.log| < s.k then
      && s.log + Clusters(s.input) == Clusters(lines) && InOrder(n, s)
      && EarlyExamples(lines, s.k) == s.nextId + Pending(s.sampler) + EarlyExamples(s.input, s.k - |s.log|)
    else
      && |Clusters(lines)| >= s.k && s.log[..s.k] == Clusters(lines)[..s.k]
      && EarlyExamples(lines, s.k) <= |s.slots|
  }

  ghost predicate Tracked(n: nat, lines: seq<Line>, s: Table) {
    && s.nextId + Pending(s.sampler) + Examples(s.input) == Examples(lines)
    && (NoneComplete(s) ==> Unanswered(s))
    && Follows(n, lines, s)
  }

  lemma LogCompletes(n: nat, s: Table)
    requires Inv(n, s) && |s.log| < s.k
    ensures NoneComplete(s)
  {
    forall r | 0 <= r < |s.ranks| ensures |s.ranks[r].known| < s.k {
      assert RankHears(s.log, s.ranks[r]);
    }
  }

  lemma StaysUnanswered(n: nat, s: Table, e: Move)
    requires n >= 2 && Inv(n, s) && Possible(n, s, e) && (NoneComplete(s) ==> Unanswered(s))
    ensures NoneComplete(Moved(n, s, e)) ==> Unanswered(Moved(n, s, e))
  {
    hide Core;
    hide Spread;
    hide FreeFor;
    hide FirstFree;
    hide IsMatch;
    hide Char;
    hide AllHear;
    var t := Moved(n, s, e);
    assert |t.ranks| == |s.ranks| && forall r :: 0 <= r < |s.ranks| ==> |s.ranks[r].known| <= |t.ranks[r].known|;
  }

  /** Before any release the first free slot is the first that was never used. */
  lemma TakesNext(n: nat, slots: seq<int>, dest: nat, used: nat)
    requires 1 <= dest < n && used <= |slots| && Marks(n, slots)
    requires forall i :: 0 <= i < |slots| ==> slots[i] < n && (slots[i] != 0 <==> i < used)
    ensures FirstFree(slots, dest, n, |slots|) == if used < |slots| then used else -1
  {
    forall i | 0 <= i < |slots| ensures FreeFor(slots[i], dest, n) <==> slots[i] == 0 {}
    if used < |slots| {
      assert FreeFor(slots[used], dest, n);
    }
  }

  lemma ReadFollows(n: nat, lines: seq<Line>, s: Table)
    requires n >= 2 && Possible(n, s, ReadLine) && |s.log| < s.k && Follows(n, lines, s)
    ensures Follows(n, lines, Moved(n, s, ReadLine))
  {
    var t := Moved(n, s, ReadLine);
    if s.input[0].ClusterLine? {
      assert s.log + Clusters(s.input) == t.log + Clusters(t.input);
      assert InOrder(n, t);
      assert EarlyExamples(s.input, s.k - |s.log|) == EarlyExamples(t.input, s.k - |t.log|);
    }
  }

  lemma LookFollows(n: nat, lines: seq<Line>, s: Table)
    requires 2 <= n <= 64 && Inv(n, s) && Possible(n, s, Look) && |s.log| < s.k && Follows(n, lines, s)
    ensures Follows(n, lines, Moved(n, s, Look))
  {
    hide FreeFor;
    hide FirstFree;
    hide Clusters;
    hide EarlyExamples;
    CoreMarks(n, s);
    hide Core;
    hide Spread;
    hide AllHear;
    hide Unmarked;
    TakesNext(n, s.slots, NextDest(s.sampler.dest, n), s.nextId);
  }

  /** Before the models are complete, nobody answers. */
  lemma NothingElse(n: nat, s: Table, e: Move)
    requires Inv(n, s) && Possible(n, s, e) && NoneComplete(s) && Unanswered(s)
    ensures e.ReadLine? || e.Look? || e.Write? || e.Send? || e.Hear?
  {
    hide Core;
    hide Spread;
    hide AllHear;
    hide FreeFor;
  }

  lemma LateFollows(n: nat, lines: seq<Line>, s: Table, e: Move)
    requires n >= 2 && Possible(n, s, e) && |s.log| >= s.k && Follows(n, lines, s)
    ensures Follows(n, lines, Moved(n, s, e))
  {
    hide FreeFor;
    hide FirstFree;
    hide IsMatch;
    hide Char;
    hide Clusters;
    hide EarlyExamples;
    var t := Moved(n, s, e);
    assert |t.slots| == |s.slots| && s.log <= t.log;
    assert t.log[..s.k] == s.log[..s.k];
  }

  lemma StepFollows(n: nat, lines: seq<Line>, s: Table, e: Move)
    requires 2 <= n <= 64 && Inv(n, s) && Possible(n, s, e) && Tracked(n, lines, s)
    ensures Follows(n, lines, Moved(n, s, e))
  {
    if |s.log| >= s.k {
      LateFollows(n, lines, s, e);
    } else {
      LogCompletes(n, s);
      if e.ReadLine? {
        ReadFollows(n, lines, s);
      } else if e.Look? {
        LookFollows(n, lines, s);
      } else {
        NothingElse(n, s, e);
        hide Core;
        hide Spread;
        hide AllHear;
        hide Clusters;
        hide EarlyExamples;
      }
    }
  }

  lemma StepCounts(n: nat, s: Table, e: Move)
    requires n >= 2 && Possible(n, s, e)
    ensures var t := Moved(n, s, e);
      && t.nextId + Pending(t.sampler) + Examples(t.input) == s.nextId + Pending(s.sampler) + Examples(s.input)
      && t.k == s.k
  {
    hide FreeFor;
    hide FirstFree;
    hide IsMatch;
    hide Char;
  }

  lemma FreshTracked(n: nat, size: nat, s: Table)
    requires n >= 2 && Fresh(n, size, s)
    ensures Tracked(n, s.input, s)
  {
    assert [] + Clusters(s.input) == Clusters(s.input);
    assert s.k == 0 ==> s.log[..0] == Clusters(s.input)[..0];
  }

  lemma SameSlots(n: nat, s: Table, e: Move)
    requires n >= 2 && Possible(n, s, e)
    ensures |Moved(n, s, e).slots| == |s.slots|
  {
    hide FreeFor;
    hide FirstFree;
    hide IsMatch;
    hide Char;
  }

  lemma {:induction false} RunTracked(n: nat, size: nat, s: Table, moves: seq<Move>)
    requires 2 <= n <= 64 && size >= n && Fresh(n, size, s)
    ensures var t := After(n, s, moves);
      Tracked(n, s.input, t) && t.k == s.k && |t.slots| == size
  {
    hide Moved;
    hide Inv;
    hide Follows;
    hide Possible;
    if |moves| == 0 {
      FreshTracked(n, size, s);
    } else {
      RunTracked(n, size, s, moves[..|moves| - 1]);
      EveryRun(n, size, s, moves[..|moves| - 1]);
      var t, e := After(n, s, moves[..|moves| - 1]), moves[|moves| - 1];
      if Possible(n, t, e) {
        StepFollows(n, s.input, t, e);
        StepCounts(n, t, e);
        StaysUnanswered(n, t, e);
        SameSlots(n, t, e);
      }
    }
  }

  ghost predicate Stuck(n: nat, s: Table) {
    forall e :: !Possible(n, s, e)
  }

  /** Every example of the input was answered and its slot released. */
  ghost predicate AllDone(lines: seq<Line>, s: Table) {
    s.input == [] && forall id: nat :: id < Examples(lines) ==> id in s.done
  }

  lemma CanReceive(n: nat, s: Table, m: Msg)
    requires n >= 2 && Inv(n, s) && s.detector.Listening? && m in s.back
    ensures Possible(n, s, Receive(m))
  {
  }

  lemma CanFind(n: nat, s: Table)
    requires n >= 2 && Inv(n, s) && (s.detector.Searching? || s.detector.Using?)
    ensures Possible(n, s, Find(s.detector.m.at)) || Possible(n, s, Release([]))
  {
    assert s.detector.m in InFlight(s) && Placed(n, s.slots, s.ids, s.detector.m);
  }

  lemma DetectorFree(n: nat, s: Table)
    requires n >= 2 && Inv(n, s) && Stuck(n, s)
    ensures s.detector.Listening? && s.back == {}
  {
    assert !Possible(n, s, Post);
    if s.detector.Searching? || s.detector.Using? {
      CanFind(n, s);
    } else if m :| m in s.back {
      CanReceive(n, s, m);
    }
  }

  /** Where nobody can move, the sampler is at the end of its input or waits without a token, and all
      examples in flight are at ranks that can hear no more and whose models are incomplete. */
  lemma StuckForm(n: nat, s: Table)
    requires n >= 2 && Inv(n, s) && Stuck(n, s)
    ensures (s.sampler.Idle? && s.input == []) || (s.sampler.Waiting? && s.tokens == 0)
    ensures s.detector.Listening? && s.back == {}
    ensures forall m :: m in s.out ==> m.dest < |s.ranks| && |s.ranks[m.dest].known| < s.k
    ensures forall r :: 0 <= r < |s.ranks| ==> !s.ranks[r].listening || s.ranks[r].heard >= |s.log|
  {
    assert !Possible(n, s, ReadLine) && !Possible(n, s, Look) && !Possible(n, s, Wake) && !Possible(n, s, Write);
    assert !Possible(n, s, Send);
    DetectorFree(n, s);
    forall r | 0 <= r < |s.ranks| ensures !s.ranks[r].listening || s.ranks[r].heard >= |s.log| {
      assert !Possible(n, s, Hear(r));
    }
    forall m | m in s.out ensures m.dest < |s.ranks| && |s.ranks[m.dest].known| < s.k {
      assert m in InFlight(s) && Placed(n, s.slots, s.ids, m);
      assert !Possible(n, s, Answer(m, UNKNOWN_LABEL));
    }
  }

  /** A rank that can hear no more of broadcasts that begin with k unmarked clusters has a complete
      model. */
  lemma HeardEnough(n: nat, s: Table, r: nat)
    requires AllHear(s) && r < |s.ranks| && (!s.ranks[r].listening || s.ranks[r].heard >= |s.log|)
    requires |s.log| >= s.k && forall i :: 0 <= i < s.k ==> s.log[i] != EOS_LABEL
    ensures |s.ranks[r].known| >= s.k
  {
    assert RankHears(s.log, s.ranks[r]);
  }

  lemma InputGoesOn(n: nat, s: Table, m: Msg)
    requires Inv(n, s) && m in s.out
    ensures m in InFlight(s) && m.id < s.nextId
  {
    NewIsNew(n, s);
  }

  /** In a stuck state of an input that can be served, and has examples, all models are complete. */
  lemma CompleteEnough(n: nat, size: nat, lines: seq<Line>, s: Table)
    requires Inv(n, s) && Tracked(n, lines, s) && |s.slots| == size && Servable(lines, s.k, size) && Examples(lines) > 0
    requires (s.sampler.Idle? && s.input == []) || s.sampler.Waiting?
    requires forall r :: 0 <= r < |s.ranks| ==> !s.ranks[r].listening || s.ranks[r].heard >= |s.log|
    ensures forall r :: 0 <= r < |s.ranks| ==> |s.ranks[r].known| >= s.k
  {
    hide Core;
    hide Spread;
    hide Unmarked;
    assert |s.log| >= s.k;
    assert forall i :: 0 <= i < s.k ==> s.log[i] == s.log[..s.k][i] == Clusters(lines)[i];
    forall r | 0 <= r < |s.ranks| ensures |s.ranks[r].known| >= s.k {
      HeardEnough(n, s, r);
    }
  }

  /** In a stuck state of an input that can be served, no example is out. */
  lemma NoneOut(n: nat, size: nat, lines: seq<Line>, s: Table)
    requires 2 <= n <= 64 && Inv(n, s) && Stuck(n, s) && Tracked(n, lines, s) && |s.slots| == size
    requires Servable(lines, s.k, size)
    ensures s.out == {}
  {
    hide Inv;
    hide Servable;
    hide Follows;
    StuckForm(n, s);
    if m :| m in s.out {
      InputGoesOn(n, s, m);
      CompleteEnough(n, size, lines, s);
    }
  }

  lemma NotOwed(n: nat, s: Table)
    requires 2 <= n <= 64 && Inv(n, s) && s.sampler.Waiting? && s.tokens == 0 && s.detector.Listening?
    ensures InFlight(s) != {}
  {
    ReleaseToCome(n, s);
  }

  lemma DoneAll(n: nat, lines: seq<Line>, s: Table)
    requires Inv(n, s) && InFlight(s) == {} && s.sampler.Idle? && s.input == [] && Tracked(n, lines, s)
    ensures AllDone(lines, s)
  {
    assert Counted(s.nextId, InFlight(s), s.done);
  }

  /** A stuck run of an input that can be served has done every example. */
  lemma StuckIsDone(n: nat, size: nat, s: Table, moves: seq<Move>)
    requires 2 <= n <= 64 && size >= n && Fresh(n, size, s) && Servable(s.input, s.k, size)
    requires Stuck(n, After(n, s, moves))
    ensures AllDone(s.input, After(n, s, moves))
  {
    hide After;
    var t := After(n, s, moves);
    EveryRun(n, size, s, moves);
    RunTracked(n, size, s, moves);
    NoneOut(n, size, s.input, t);
    StuckForm(n, t);
    assert InFlight(t) == {};
    if t.sampler.Waiting? {
      NotOwed(n, t);
    }
    DoneAll(n, s.input, t);
  }

  /** If some model is complete, the input can be served. */
  lemma KnowsEnough(n: nat, size: nat, lines: seq<Line>, s: Table, r: nat)
    requires Inv(n, s) && Follows(n, lines, s) && |s.slots| == size && r < |s.ranks| && |s.ranks[r].known| >= s.k
    ensures Servable(lines, s.k, size)
  {
    hide Core;
    hide Spread;
    hide Unmarked;
    var known := s.ranks[r].known;
    assert RankHears(s.log, s.ranks[r]);
    assert forall i :: 0 <= i < s.k ==> Clusters(lines)[i] == s.log[..s.k][i] == known[i] && known[i] in known;
  }

  /** With input that cannot be served no example is ever answered. */
  lemma NeverAnswered(n: nat, size: nat, s: Table, moves: seq<Move>)
    requires 2 <= n <= 64 && size >= n && Fresh(n, size, s) && !Servable(s.input, s.k, size)
    ensures !AllDone(s.input, After(n, s, moves))
  {
    hide After;
    var t := After(n, s, moves);
    EveryRun(n, size, s, moves);
    RunTracked(n, size, s, moves);
    assert NoneComplete(t) by {
      if r: nat :| r < |t.ranks| && |t.ranks[r].known| >= t.k {
        KnowsEnough(n, size, s.input, t, r);
      }
    }
    assert 0 !in t.done;
  }

  /** What the sampler and the detector have yet to do for what they hold. */
  function SamplerLeft(sampler: Sampler): nat {
    match sampler
    case Idle(_) => 0
    case Ready(_) => 11
    case Waiting(_) => 10
    case Claimed(_, _) => 10
    case Written(_) => 9
  }

  function DetectorLeft(detector: Detector): nat {
    match detector
    case Listening => 0
    case Searching(_) => 6
    case Using(_, _) => 5
    case Posting => 4
    case Missing(_) => 0
  }

  /** A bound on the moves that are left, but for those of the receivers. */
  function MovesLeft(s: Table): nat {
    12 * |s.input| + SamplerLeft(s.sampler) + 8 * |s.out| + 7 * |s.back| + DetectorLeft(s.detector) + 2 * s.tokens
  }

  function Unheard(size: nat): Rank -> nat {
    (rank: Rank) => if rank.heard <= size then size - rank.heard else 0
  }

  function HearLeft(s: Table): nat {
    Sum(s.ranks, Unheard(|s.log|))
  }

  lemma MessageUsesOne(n: nat, s: Table, e: Move)
    requires n >= 2 && SamplerOk(n, s) && DetectorOk(n, s) && Possible(n, s, e) && (e.Send? || e.Answer? || e.Receive?)
    ensures MovesLeft(Moved(n, s, e)) < MovesLeft(s)
  {
    var t := Moved(n, s, e);
    if e.Send? {
      assert |t.out| == |s.out| + 1;
    } else if e.Answer? {
      assert |t.out| == |s.out| - 1 && |t.back| == |s.back| + 1;
    } else {
      assert |t.back| == |s.back| - 1;
    }
  }

  lemma OtherUsesOne(n: nat, s: Table, e: Move)
    requires n >= 2 && Possible(n, s, e) && !e.Send? && !e.Answer? && !e.Receive? && !e.Hear?
    ensures MovesLeft(Moved(n, s, e)) < MovesLeft(s)
  {
    hide FreeFor;
    hide FirstFree;
    hide IsMatch;
    hide Char;
    var t := Moved(n, s, e);
    assert t.out == s.out && t.back == s.back;
  }

  lemma HearUsesOne(n: nat, s: Table, r: nat)
    requires n >= 2 && Possible(n, s, Hear(r))
    ensures MovesLeft(Moved(n, s, Hear(r))) == MovesLeft(s) && HearLeft(Moved(n, s, Hear(r))) < HearLeft(s)
  {
    SumUpdate(s.ranks, r, Moved(n, s, Hear(r)).ranks[r], Unheard(|s.log|));
  }

  /** Every move uses up some of the bound, except a receiver's, which uses up its own. */
  lemma MovesRunOut(n: nat, s: Table, e: Move)
    requires n >= 2 && Inv(n, s) && Possible(n, s, e)
    ensures !e.Hear? ==> MovesLeft(Moved(n, s, e)) < MovesLeft(s)
    ensures e.Hear? ==> MovesLeft(Moved(n, s, e)) == MovesLeft(s) && HearLeft(Moved(n, s, e)) < HearLeft(s)
  {
    hide Core;
    hide Spread;
    hide AllHear;
    hide Unmarked;
    hide SamplerOk;
    hide DetectorOk;
    hide MovesLeft;
    hide HearLeft;
    hide Moved;
    match e
    case Hear(r) => HearUsesOne(n, s, r);
    case Send => MessageUsesOne(n, s, e);
    case Answer(_, _) => MessageUsesOne(n, s, e);
    case Receive(_) => MessageUsesOne(n, s, e);
    case _ => OtherUsesOne(n, s, e);
  }

  lemma AfterSnoc(n: nat, s: Table, moves: seq<Move>, e: Move)
    requires n >= 2
    ensures After(n, s, moves + [e])
         == if Possible(n, After(n, s, moves), e) then Moved(n, After(n, s, moves), e) else After(n, s, moves)
  {
    assert (moves + [e])[..|moves|] == moves;
  }

  /** Every run can be carried on to one in which nobody can move. */
  lemma {:induction false} Maximal(n: nat, size: nat, s: Table, moves: seq<Move>) returns (m: seq<Move>)
    requires 2 <= n <= 64 && size >= n && Fresh(n, size, s)
    ensures moves <= m && Stuck(n, After(n, s, m))
    decreases MovesLeft(After(n, s, moves)), HearLeft(After(n, s, moves))
  {
    hide After;
    hide Moved;
    hide Possible;
    hide Inv;
    hide MovesLeft;
    hide HearLeft;
    var t := After(n, s, moves);
    EveryRun(n, size, s, moves);
    if e :| Possible(n, t, e) {
      AfterSnoc(n, s, moves, e);
      MovesRunOut(n, t, e);
      m := Maximal(n, size, s, moves + [e]);
    } else {
      m := moves;
    }
  }

  /** A run in which nobody can move has done every example, in all runs of an input, exactly if the
      input can be served. With too many examples before the k-th cluster the sampler waits for a
      slot while the ranks wait for clusters that only the sampler can read. */
  lemma DoneIff(n: nat, size: nat, s: Table)
    requires 2 <= n <= 64 && size >= n && Fresh(n, size, s)
    ensures (forall moves :: Stuck(n, After(n, s, moves)) ==> AllDone(s.input, After(n, s, moves)))
       <==> Servable(s.input, s.k, size)
  {
    hide After;
    hide Stuck;
    hide AllDone;
    hide Servable;
    hide Fresh;
    if Servable(s.input, s.k, size) {
      forall moves | Stuck(n, After(n, s, moves)) ensures AllDone(s.input, After(n, s, moves)) {
        StuckIsDone(n, size, s, moves);
      }
    } else {
      var m := Maximal(n, size, s, []);
      NeverAnswered(n, size, s, m);
    }
  }

  lemma {:induction false} ExamplesFirst(e: nat, rest: seq<Line>, k: nat)
    requires k > 0
    ensures EarlyExamples(seq(e, _ => ExampleLine) + rest, k) == e + EarlyExamples(rest, k)
    ensures Examples(seq(e, _ => ExampleLine) + rest) >= e
  {
    if e == 0 {
      assert seq(0, _ => ExampleLine) + rest == rest;
    } else {
      var lines := seq(e, _ => ExampleLine) + rest;
      assert lines[1..] == seq(e - 1, _ => ExampleLine) + rest;
      ExamplesFirst(e - 1, rest, k);
    }
  }

  /** Inputs that hang: one example more than there are slots, whatever comes after them. */
  lemma TooManyEarly(n: nat, size: nat, s: Table, rest: seq<Line>) returns (m: seq<Move>)
    requires 2 <= n <= 64 && size >= n && Fresh(n, size, s) && s.k > 0
    requires s.input == seq(size + 1, _ => ExampleLine) + rest
    ensures Stuck(n, After(n, s, m)) && !AllDone(s.input, After(n, s, m))
  {
    ExamplesFirst(size + 1, rest, s.k);
    m := Maximal(n, size, s, []);
    NeverAnswered(n, size, s, m);
  }

  function OfLine(f: nat -> nat): Line -> nat {
    (line: Line) => if line.ClusterLine? then f(line.tag) else 0
  }

  function OfFound(f: nat -> nat): Move -> nat {
    (e: Move) => if e.Release? then Sum(e.found, f) else 0
  }

  lemma StepBroadcasts(n: nat, s: Table, e: Move, f: nat -> nat)
    requires n >= 2 && Possible(n, s, e)
    ensures var t := Moved(n, s, e);
      Sum(t.log, f) + Sum(t.input, OfLine(f)) == Sum(s.log, f) + Sum(s.input, OfLine(f)) + OfFound(f)(e)
  {
    hide FirstFree;
    hide Char;
    hide IsMatch;
    hide Sum;
    if e.ReadLine? {
      SumHead(s.input, OfLine(f));
      if s.input[0].ClusterLine? {
        SumAppend(s.log, s.input[0].tag, f);
      }
    } else if e.Release? {
      SumConcat(s.log, e.found, f);
    }
  }

  /** All clusters are broadcast: in every state of every run, counted by label in any way, the log
      holds the clusters of the lines that were read and those that the detector found. */
  lemma {:induction false} AllBroadcast(n: nat, s: Table, moves: seq<Move>, f: nat -> nat)
    requires n >= 2 && s.log == []
    ensures var t := After(n, s, moves);
      Sum(t.log, f) + Sum(t.input, OfLine(f)) == Sum(s.input, OfLine(f)) + Times(n, s, moves, OfFound(f))
  {
    hide Moved;
    hide Possible;
    hide Sum;
    if |moves| > 0 {
      var before, e := moves[..|moves| - 1], moves[|moves| - 1];
      AllBroadcast(n, s, before, f);
      if Possible(n, After(n, s, before), e) {
        StepBroadcasts(n, After(n, s, before), e, f);
      }
    } else {
      SumZero(s.log, f);
    }
  }
}
