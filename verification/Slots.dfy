/** The slot table that sampler and detector share in old-code/src/reboot/threaded-mpi.c: where the
    root keeps each example while a classifier works on it, as steps under the table's mutex. */
module Slots {
  import opened Ranks
  import opened Labels

  /** Storing into a `char`: signed, eight bits. */
  function Char(v: int): (c: int)
    ensures -128 <= c <= 127 && (-128 <= v <= 127 ==> c == v)
  {
    (v + 128) % 256 - 128
  }

  /** The sampler may take the slot for a rank: it was never used, or its last example went to
      that rank and was released. */
  predicate FreeFor(slot: int, dest: nat, mpiSize: nat)
    requires mpiSize > 0
  {
    slot == 0 || (slot > mpiSize && slot % mpiSize == dest)
  }

  lemma ModOnce(d: nat, n: nat)
    requires d < n
    ensures (d + n) % n == d
  {
    var q, r := (d + n) / n, (d + n) % n;
    assert d + n == q * n + r;
    assert q == 1;
  }

  lemma ReleasedIsFree(d: nat, mpiSize: nat)
    requires 1 <= d < mpiSize <= 64
    ensures Char(d) == d && Char(d + mpiSize) == d + mpiSize && (d + mpiSize) % mpiSize == d
    ensures FreeFor(Char(d + mpiSize), d, mpiSize)
  {
    ModOnce(d, mpiSize);
  }

  /** A slot keeps the rank when it is taken, and is free for it when it is released, for all ranks
      exactly if there are at most 64. */
  lemma CharsSuffice(mpiSize: nat)
    requires mpiSize >= 2
    ensures (forall d: nat :: 1 <= d < mpiSize ==> Char(d) == d && FreeFor(Char(Char(d) + mpiSize), d, mpiSize))
       <==> mpiSize <= 64
  {
    if mpiSize <= 64 {
      forall d: nat | 1 <= d < mpiSize ensures Char(d) == d && FreeFor(Char(Char(d) + mpiSize), d, mpiSize) {
        ReleasedIsFree(d, mpiSize);
      }
    } else {
      var d := mpiSize - 1;
      assert d <= 127 ==> Char(d + mpiSize) < 0;
      assert !(Char(d) == d && FreeFor(Char(Char(d) + mpiSize), d, mpiSize));
    }
  }

  /** Of the marks in the table, free for a rank are zero and the rank's own released one. */
  lemma FreeIff(slot: int, dest: nat, n: nat)
    requires 0 <= slot < 2 * n && slot != n && 1 <= dest < n
    ensures FreeFor(slot, dest, n) <==> slot == 0 || slot == dest + n
  {
    if slot > n {
      ModOnce(slot - n, n);
    }
  }

  /** The lowest index whose slot the sampler may take, or -1. */
  function FirstFree(slots: seq<int>, dest: nat, mpiSize: nat, n: nat): (i: int)
    requires n <= |slots| && mpiSize > 0
    ensures -1 <= i < n
    ensures i == -1 ==> forall q :: 0 <= q < n ==> !FreeFor(slots[q], dest, mpiSize)
    ensures i >= 0 ==> FreeFor(slots[i], dest, mpiSize) && forall q :: 0 <= q < i ==> !FreeFor(slots[q], dest, mpiSize)
  {
    if n == 0 then -1
    else
      var i := FirstFree(slots, dest, mpiSize, n - 1);
      if i >= 0 then i else if FreeFor(slots[n - 1], dest, mpiSize) then n - 1 else -1
  }

  lemma {:induction false} FoundStays(slots: seq<int>, dest: nat, mpiSize: nat, i: nat, n: nat)
    requires i < n <= |slots| && mpiSize > 0 && FirstFree(slots, dest, mpiSize, i + 1) == i
    ensures FirstFree(slots, dest, mpiSize, n) == i
  {
    if i + 1 < n {
      FoundStays(slots, dest, mpiSize, i, n - 1);
    }
  }

  /** The sampler's search. */
  method FindFree(slots: array<int>, dest: nat, mpiSize: nat) returns (found: int)
    requires mpiSize > 0
    ensures found == FirstFree(slots[..], dest, mpiSize, slots.Length)
  {
    found := -1;
    for i := 0 to slots.Length
      invariant found == -1 == FirstFree(slots[..], dest, mpiSize, i)
    {
      if FreeFor(slots[i], dest, mpiSize) {
        found := i;
        FoundStays(slots[..], dest, mpiSize, i, slots.Length);
        break;
      }
    }
  }

  ghost predicate IsMatch(slots: seq<int>, ids: seq<nat>, dest: nat, id: nat, i: int) {
    && |slots| == |ids| && -1 <= i < |slots|
    && (i == -1 ==> forall q :: 0 <= q < |slots| ==> !(slots[q] == dest && ids[q] == id))
    && (i >= 0 ==> slots[i] == dest && ids[i] == id && forall q :: 0 <= q < i ==> !(slots[q] == dest && ids[q] == id))
  }

  /** The detector's search: the lowest slot in use by the rank that holds the id, or -1. */
  method FindMatch(slots: array<int>, ids: array<nat>, dest: nat, id: nat) returns (found: int)
    requires slots.Length == ids.Length
    ensures IsMatch(slots[..], ids[..], dest, id, found)
  {
    found := -1;
    for i := 0 to slots.Length
      invariant found == -1
      invariant forall q :: 0 <= q < i ==> !(slots[q] == dest && ids[q] == id)
    {
      if slots[i] == dest && ids[i] == id {
        found := i;
        break;
      }
    }
  }

  /** An example on its way: its id, the rank it went to, and the slot the sampler put it in, which
      nobody reads. */
  datatype Msg = Msg(id: nat, dest: nat, at: nat)

  /** The sampler is before its next line, before a search for its example, waits after one in vain
      for `dest`, has taken a slot, or has written the example's id there. */
  datatype Sampler =
    | Idle(dest: nat)
    | Ready(dest: nat)
    | Waiting(dest: nat)
    | Claimed(dest: nat, at: nat)
    | Written(m: Msg)

  /** The detector listens, searches, uses the slot it found, is about to post, or waits in vain. */
  datatype Detector = Listening | Searching(m: Msg) | Using(m: Msg, at: nat) | Posting | Missing(m: Msg)

  /** A line of the input: a cluster by its label, or an example. */
  datatype Line = ClusterLine(tag: nat) | ExampleLine

  /** A classifier rank: the labels of its model, how many broadcasts its receiver heard, whether it
      still listens, and whether its classifier ended. */
  datatype Rank = Rank(known: seq<nat>, heard: nat, listening: bool, ended: bool)

  /** `log` holds the labels of the clusters broadcast; `labels` are those in the slots' records;
      `packed` and `answered` those that examples were sent and answered with, by id. */
  datatype Table = Table(
    input: seq<Line>, log: seq<nat>,
    slots: seq<int>, ids: seq<nat>, labels: seq<nat>, nextId: nat, sampler: Sampler, out: set<Msg>, back: set<Msg>,
    packed: map<nat, nat>, answered: map<nat, nat>, ranks: seq<Rank>, k: nat,
    detector: Detector, streams: nat, tokens: nat, done: set<nat>)

  datatype Move =
    | ReadLine | Look | Wake | Write | Send | Hear(r: nat) | Answer(m: Msg, tag: nat)
    | Receive(m: Msg) | Find(i: int) | Release(found: seq<nat>) | Post

  function Label(labels: map<nat, nat>, id: nat): (tag: nat)
    ensures id in labels ==> tag == labels[id]
  {
    if id in labels then labels[id] else 0
  }

  /** The classifier of a rank waits for k clusters, unless it takes the example for the end. */
  predicate Answers(s: Table, m: Msg, tag: nat) {
    && m.dest < |s.ranks| && !s.ranks[m.dest].ended
    && if Label(s.packed, m.id) == EOS_LABEL then tag == EOS_LABEL
       else |s.ranks[m.dest].known| >= s.k && MayAnswer(s.ranks[m.dest].known, tag)
  }

  ghost predicate Possible(n: nat, s: Table, e: Move) {
    match e
    case ReadLine => s.sampler.Idle? && |s.input| > 0
    case Look => s.sampler.Ready? && s.sampler.dest < n
    case Wake => s.sampler.Waiting? && s.tokens > 0
    case Write => s.sampler.Claimed? && s.sampler.at < |s.ids|
    case Send => s.sampler.Written?
    case Hear(r) => r < |s.ranks| && s.ranks[r].listening && s.ranks[r].heard < |s.log|
    case Answer(m, tag) => m in s.out && Answers(s, m, tag)
    case Receive(m) => s.detector.Listening? && m in s.back && s.streams > 0
    case Find(i) => s.detector.Searching? && IsMatch(s.slots, s.ids, s.detector.m.dest, s.detector.m.id, i)
    case Release(found) => s.detector.Using? && s.detector.at < |s.slots|
    case Post => s.detector.Posting?
  }

  ghost function Moved(n: nat, s: Table, e: Move): (t: Table)
    requires n >= 2 && Possible(n, s, e)
  {
    match e
    case ReadLine =>
      var t := s.(input := s.input[1..]);
      (match s.input[0]
       case ClusterLine(tag) => t.(log := s.log + [tag])
       case ExampleLine => t.(sampler := Ready(s.sampler.dest)))
    case Look =>
      var dest := NextDest(s.sampler.dest, n);
      var i := FirstFree(s.slots, dest, n, |s.slots|);
      if i == -1 then s.(sampler := Waiting(dest))
      else s.(slots := s.slots[i := Char(dest)], sampler := Claimed(dest, i))
    case Wake => s.(tokens := s.tokens - 1, sampler := Ready(s.sampler.dest))
    case Write =>
      s.(ids := s.ids[s.sampler.at := s.nextId], sampler := Written(Msg(s.nextId, s.sampler.dest, s.sampler.at)),
         nextId := s.nextId + 1)
    case Send =>
      var m := s.sampler.m;
      s.(out := s.out + {m}, sampler := Idle(m.dest),
         packed := s.packed[m.id := if m.at < |s.labels| then s.labels[m.at] else 0])
    case Hear(r) =>
      var tag, rank := s.log[s.ranks[r].heard], s.ranks[r].(heard := s.ranks[r].heard + 1);
      s.(ranks := s.ranks[r := if tag == EOS_LABEL then rank.(listening := false)
                               else rank.(known := rank.known + [tag])])
    case Answer(m, tag) =>
      s.(out := s.out - {m}, back := s.back + {m}, answered := s.answered[m.id := tag],
         ranks := s.ranks[m.dest := s.ranks[m.dest].(ended := tag == EOS_LABEL)])
    case Receive(m) =>
      if Label(s.answered, m.id) == EOS_LABEL then s.(back := s.back - {m}, streams := s.streams - 1)
      else s.(back := s.back - {m}, detector := Searching(m))
    case Find(i) =>
      if i == -1 then s.(detector := Missing(s.detector.m))
      else s.(detector := Using(s.detector.m, i),
              labels := if i < |s.labels| then s.labels[i := Label(s.answered, s.detector.m.id)] else s.labels)
    case Release(found) =>
      s.(log := s.log + found, slots := s.slots[s.detector.at := Char(s.slots[s.detector.at] + n)],
         done := s.done + {s.detector.m.id},
         detector := Posting)
    case Post => s.(tokens := s.tokens + 1, detector := Listening)
  }

  ghost predicate Fresh(n: nat, size: nat, s: Table)
    requires n >= 2
  {
    s == Table(s.input, [], seq(size, _ => 0), seq(size, _ => 0), seq(size, _ => 0), 0, Idle(0), {}, {}, map[], map[],
               seq(n, _ => Rank([], 0, true, false)), s.k, Listening, n - 1, 0, {})
  }

  ghost function After(n: nat, s: Table, moves: seq<Move>): (t: Table)
    requires n >= 2
  {
    if |moves| == 0 then s
    else
      var t := After(n, s, moves[..|moves| - 1]);
      var e := moves[|moves| - 1];
      if Possible(n, t, e) then Moved(n, t, e) else t
  }

  /** Examples between the sampler's writing of the id and the detector's release. */
  ghost function InFlight(s: Table): set<Msg> {
    s.out + s.back + (if s.sampler.Written? then {s.sampler.m} else {})
    + (if s.detector.Searching? || s.detector.Using? then {s.detector.m} else {})
  }

  /** The slot of an example in flight: it is marked with the rank, holds the id, and no slot
      before it holds that id. */
  ghost predicate Placed(n: nat, slots: seq<int>, ids: seq<nat>, m: Msg) {
    && m.at < |slots| == |ids| && 1 <= m.dest < n && slots[m.at] == m.dest && ids[m.at] == m.id
    && forall i :: 0 <= i < m.at ==> ids[i] != m.id
  }

  /** Examples in flight share neither slot nor id. */
  ghost predicate Distinct(flight: set<Msg>) {
    forall m, k :: m in flight && k in flight && (m.at == k.at || m.id == k.id) ==> m == k
  }

  /** Every slot in use belongs to an example in flight or to the one the sampler is writing. */
  ghost predicate Owned(n: nat, slots: seq<int>, flight: set<Msg>, claimed: int) {
    forall i :: 0 <= i < |slots| && 1 <= slots[i] < n ==> i == claimed || exists m :: m in flight && m.at == i
  }

  ghost predicate Marks(n: nat, slots: seq<int>) {
    forall i :: 0 <= i < |slots| ==> 0 <= slots[i] < 2 * n && slots[i] != n
  }

  /** Each id so far is in flight or done, and not both. */
  ghost predicate Counted(nextId: nat, flight: set<Msg>, done: set<nat>) {
    && (forall id: nat :: id < nextId ==> id in done || exists m :: m in flight && m.id == id)
    && (forall id :: id in done ==> id < nextId)
    && (forall m :: m in flight ==> m.id < nextId && m.id !in done)
  }

  /** The slot being written belongs to no example in flight; the first of all is slot 0. */
  ghost predicate ClaimOk(n: nat, slots: seq<int>, nextId: nat, flight: set<Msg>, claimed: int) {
    && (claimed >= 0 ==> claimed < |slots| && 1 <= slots[claimed] < n)
    && (forall m :: m in flight ==> m.at != claimed)
    && (nextId == 0 ==> forall i :: 0 <= i < |slots| && slots[i] != 0 ==> i == claimed == 0)
  }

  ghost predicate IdsOld(ids: seq<nat>, nextId: nat) {
    forall i :: 0 <= i < |ids| ==> ids[i] < nextId || ids[i] == 0
  }

  ghost predicate Core(n: nat, slots: seq<int>, ids: seq<nat>, nextId: nat, flight: set<Msg>, done: set<nat>,
                       claimed: int) {
    && |slots| == |ids| && (forall m :: m in flight ==> Placed(n, slots, ids, m)) && Distinct(flight)
    && Owned(n, slots, flight, claimed) && Marks(n, slots) && Counted(nextId, flight, done)
    && ClaimOk(n, slots, nextId, flight, claimed) && IdsOld(ids, nextId)
  }

  lemma ClaimKeeps(n: nat, slots: seq<int>, ids: seq<nat>, nextId: nat, flight: set<Msg>, done: set<nat>, dest: nat)
    requires 2 <= n <= 64 && Core(n, slots, ids, nextId, flight, done, -1) && 1 <= dest < n
    requires FirstFree(slots, dest, n, |slots|) >= 0
    ensures var i := FirstFree(slots, dest, n, |slots|);
      Core(n, slots[i := dest], ids, nextId, flight, done, i) && forall m :: m in flight ==> m.at != i
  {
    hide Counted;
    hide IdsOld;
    hide FreeFor;
    var i := FirstFree(slots, dest, n, |slots|);
    var slots' := slots[i := dest];
    FreeIff(slots[i], dest, n);
    forall m | m in flight ensures m.at != i && Placed(n, slots', ids, m) {
      assert Placed(n, slots, ids, m);
    }
    assert Owned(n, slots', flight, i);
    if nextId == 0 {
      FreeIff(slots[0], dest, n);
    }
  }

  lemma WriteKeeps(n: nat, slots: seq<int>, ids: seq<nat>, nextId: nat, flight: set<Msg>, done: set<nat>, dest: nat,
                   at: nat)
    requires Core(n, slots, ids, nextId, flight, done, at) && at < |slots| && slots[at] == dest
    ensures Core(n, slots, ids[at := nextId], nextId + 1, flight + {Msg(nextId, dest, at)}, done, -1)
  {
    var m0, ids' := Msg(nextId, dest, at), ids[at := nextId];
    forall m | m in flight + {m0} ensures Placed(n, slots, ids', m) {
      if m in flight {
        assert Placed(n, slots, ids, m);
      }
    }
    forall id: nat | id < nextId + 1 ensures id in done || exists m :: m in flight + {m0} && m.id == id {
      if id == nextId {
        assert m0 in flight + {m0};
      } else if id !in done {
        var m :| m in flight && m.id == id;
        assert m in flight + {m0};
      }
    }
    forall i | 0 <= i < |slots| && 1 <= slots[i] < n ensures exists m :: m in flight + {m0} && m.at == i {
      if i == at {
        assert m0 in flight + {m0};
      } else {
        var m :| m in flight && m.at == i;
        assert m in flight + {m0};
      }
    }
  }

  lemma ReleaseKeeps(n: nat, slots: seq<int>, ids: seq<nat>, nextId: nat, flight: set<Msg>, done: set<nat>,
                     claimed: int, m0: Msg)
    requires n <= 64 && Core(n, slots, ids, nextId, flight, done, claimed) && m0 in flight
    ensures m0.at < |slots| && Char(slots[m0.at] + n) == m0.dest + n
    ensures Core(n, slots[m0.at := m0.dest + n], ids, nextId, flight - {m0}, done + {m0.id}, claimed)
  {
    assert Placed(n, slots, ids, m0);
    var slots', flight' := slots[m0.at := m0.dest + n], flight - {m0};
    forall m | m in flight' ensures Placed(n, slots', ids, m) {
      assert Placed(n, slots, ids, m);
    }
    forall i | 0 <= i < |slots'| && 1 <= slots'[i] < n ensures i == claimed || exists m :: m in flight' && m.at == i {
      if i != claimed {
        var m :| m in flight && m.at == i;
        assert m in flight';
      }
    }
    forall id: nat | id < nextId ensures id in done + {m0.id} || exists m :: m in flight' && m.id == id {
      if id !in done && id != m0.id {
        var m :| m in flight && m.id == id;
        assert m in flight';
      }
    }
  }

  function ClaimedAt(sampler: Sampler): int {
    if sampler.Claimed? then sampler.at else -1
  }

  ghost predicate SamplerOk(n: nat, s: Table) {
    match s.sampler
    case Idle(d) => d < n
    case Ready(d) => d < n
    case Waiting(d) => 1 <= d < n && (s.tokens > 0 || s.detector.Posting? || d in s.slots)
    case Claimed(d, at) => 1 <= d < n && at < |s.slots| && s.slots[at] == d
    case Written(m) => m.dest < n && m !in s.out && m !in s.back
  }

  ghost predicate DetectorOk(n: nat, s: Table) {
    && !s.detector.Missing? && s.out !! s.back
    && (s.detector.Searching? || s.detector.Using? ==>
          s.detector.m !in s.out && s.detector.m !in s.back && !(s.sampler.Written? && s.sampler.m == s.detector.m))
    && (s.detector.Using? ==> s.detector.at == s.detector.m.at)
  }

  /** The rank the sampler turned to last. */
  function LastDest(sampler: Sampler): nat {
    if sampler.Written? then sampler.m.dest else sampler.dest
  }

  /** In the first round over the ranks, slot i goes to rank i + 1. */
  ghost predicate FirstRound(n: nat, slots: seq<int>, last: nat) {
    last < n - 1 && forall i :: 0 <= i < |slots| ==>
      if i < last then slots[i] == i + 1 || slots[i] == i + 1 + n else slots[i] == 0
  }

  ghost predicate Serves(n: nat, slots: seq<int>, d: nat) {
    exists q :: 0 <= q < |slots| && (slots[q] == d || slots[q] == d + n)
  }

  /** Every rank has a slot of its own. */
  ghost predicate AllServed(n: nat, slots: seq<int>) {
    forall d: nat :: 1 <= d < n ==> Serves(n, slots, d)
  }

  ghost predicate Spread(n: nat, slots: seq<int>, last: nat) {
    |slots| >= n && (FirstRound(n, slots, last) || AllServed(n, slots))
  }

  lemma RoundServesAll(n: nat, slots: seq<int>)
    requires n <= |slots| && forall i :: 0 <= i < n - 1 ==> slots[i] == i + 1 || slots[i] == i + 1 + n
    ensures AllServed(n, slots)
  {
    forall d: nat | 1 <= d < n ensures Serves(n, slots, d) {
      assert slots[d - 1] == d || slots[d - 1] == d + n;
    }
  }

  lemma ClaimServes(n: nat, slots: seq<int>, i: nat, dest: nat)
    requires AllServed(n, slots) && i < |slots| && (slots[i] == 0 || slots[i] == dest + n) && 1 <= dest < n
    ensures AllServed(n, slots[i := dest])
  {
    var slots' := slots[i := dest];
    forall d: nat | 1 <= d < n ensures Serves(n, slots', d) {
      assert Serves(n, slots, d);
      var q :| 0 <= q < |slots| && (slots[q] == d || slots[q] == d + n);
      assert slots'[q] == if q == i then dest else slots[q];
    }
  }

  lemma RoundTakesNext(n: nat, slots: seq<int>, last: nat)
    requires 2 <= n <= 64 && FirstRound(n, slots, last) && |slots| >= n && Marks(n, slots)
    ensures FirstFree(slots, last + 1, n, |slots|) == last
  {
    hide FreeFor;
    forall q | 0 <= q <= last ensures FreeFor(slots[q], last + 1, n) <==> q == last {
      FreeIff(slots[q], last + 1, n);
    }
    assert FreeFor(slots[last], last + 1, n);
  }

  lemma ClaimSpreads(n: nat, slots: seq<int>, last: nat)
    requires 2 <= n <= 64 && Spread(n, slots, last) && last < n && Marks(n, slots)
    ensures var dest := NextDest(last, n);
      var i := FirstFree(slots, dest, n, |slots|);
      if i == -1 then dest in slots && AllServed(n, slots) else Spread(n, slots[i := dest], dest)
  {
    hide FreeFor;
    var dest := NextDest(last, n);
    var i := FirstFree(slots, dest, n, |slots|);
    if FirstRound(n, slots, last) {
      RoundTakesNext(n, slots, last);
      if dest == n - 1 {
        RoundServesAll(n, slots[i := dest]);
      }
    } else if i == -1 {
      assert Serves(n, slots, dest);
      var q :| 0 <= q < |slots| && (slots[q] == dest || slots[q] == dest + n);
      FreeIff(slots[q], dest, n);
    } else {
      FreeIff(slots[i], dest, n);
      ClaimServes(n, slots, i, dest);
    }
  }

  lemma ReleaseSpreads(n: nat, slots: seq<int>, last: nat, at: nat)
    requires at < |slots| && 1 <= slots[at] < n && Spread(n, slots, last)
    ensures Spread(n, slots[at := slots[at] + n], last)
  {
    var slots' := slots[at := slots[at] + n];
    if !FirstRound(n, slots, last) {
      forall d: nat | 1 <= d < n ensures Serves(n, slots', d) {
        assert Serves(n, slots, d);
        var q :| 0 <= q < |slots| && (slots[q] == d || slots[q] == d + n);
        assert slots'[q] == if q == at then slots[at] + n else slots[q];
      }
    }
  }

  /** No label under way is the mark: receivers stop at it before they add anything, so no example
      is answered with it, and it gets into no slot's record. */
  ghost predicate Unmarked(n: nat, s: Table) {
    && (forall i :: 0 <= i < |s.labels| ==> s.labels[i] != EOS_LABEL)
    && (forall id :: id in s.packed ==> s.packed[id] != EOS_LABEL)
    && (forall id :: id in s.answered ==> s.answered[id] != EOS_LABEL)
    && |s.ranks| == n && (forall r :: 0 <= r < n ==> EOS_LABEL !in s.ranks[r].known && !s.ranks[r].ended)
    && s.streams == n - 1
  }

  /** A rank knows the labels broadcast up to the first mark it heard. */
  ghost predicate RankHears(log: seq<nat>, rank: Rank) {
    && rank.known <= log && EOS_LABEL !in rank.known && rank.heard == |rank.known| + (if rank.listening then 0 else 1)
    && rank.heard <= |log| && (!rank.listening ==> log[|rank.known|] == EOS_LABEL)
  }

  ghost predicate AllHear(s: Table) {
    forall r :: 0 <= r < |s.ranks| ==> RankHears(s.log, s.ranks[r])
  }

  lemma KeepsHearing(n: nat, s: Table, e: Move)
    requires n >= 2 && Possible(n, s, e) && AllHear(s)
    ensures AllHear(Moved(n, s, e))
  {
    hide FreeFor;
    hide FirstFree;
    hide IsMatch;
    hide Char;
    var t := Moved(n, s, e);
    forall r | 0 <= r < |t.ranks| ensures RankHears(t.log, t.ranks[r]) {
      assert RankHears(s.log, s.ranks[r]);
    }
  }

  lemma StaysUnmarked(n: nat, s: Table, e: Move)
    requires n >= 2 && Possible(n, s, e) && Unmarked(n, s)
    ensures Unmarked(n, Moved(n, s, e))
  {
    hide FreeFor;
    hide FirstFree;
    hide IsMatch;
    hide Char;
  }

  ghost predicate Inv(n: nat, s: Table) {
    && Core(n, s.slots, s.ids, s.nextId, InFlight(s), s.done, ClaimedAt(s.sampler))
    && SamplerOk(n, s) && DetectorOk(n, s) && Spread(n, s.slots, LastDest(s.sampler)) && Unmarked(n, s) && AllHear(s)
  }

  lemma CoreMarks(n: nat, s: Table)
    requires Inv(n, s)
    ensures Marks(n, s.slots) && |s.slots| == |s.ids| && |s.slots| >= n
  {
  }

  lemma ServedSpreads(n: nat, slots: seq<int>, last: nat)
    requires AllServed(n, slots) && |slots| >= n
    ensures Spread(n, slots, last)
  {
  }

  lemma LookFlight(n: nat, s: Table)
    requires n >= 2 && Possible(n, s, Look)
    ensures InFlight(Moved(n, s, Look)) == InFlight(s)
    ensures DetectorOk(n, s) ==> DetectorOk(n, Moved(n, s, Look))
  {
  }

  lemma LookKeeps(n: nat, s: Table)
    requires 2 <= n <= 64 && Inv(n, s) && Possible(n, s, Look)
    ensures Inv(n, Moved(n, s, Look))
  {
    hide Unmarked;
    hide AllHear;
    StaysUnmarked(n, s, Look);
    KeepsHearing(n, s, Look);
    hide Core;
    hide Spread;
    hide FreeFor;
    hide FirstFree;
    hide Char;
    hide InFlight;
    hide DetectorOk;
    var t := Moved(n, s, Look);
    LookFlight(n, s);
    var dest := NextDest(s.sampler.dest, n);
    var i := FirstFree(s.slots, dest, n, |s.slots|);
    assert Marks(n, s.slots) && |s.slots| >= n by { CoreMarks(n, s); }
    ClaimSpreads(n, s.slots, s.sampler.dest);
    if i >= 0 {
      ClaimKeeps(n, s.slots, s.ids, s.nextId, InFlight(s), s.done, dest);
    } else {
      assert Spread(n, s.slots, dest) by { ServedSpreads(n, s.slots, dest); }
    }
  }

  lemma NewIsNew(n: nat, s: Table)
    requires Inv(n, s)
    ensures forall m :: m in InFlight(s) ==> m.id < s.nextId
  {
  }

  lemma WriteFlight(n: nat, s: Table)
    requires n >= 2 && Possible(n, s, Write) && DetectorOk(n, s) && forall m :: m in InFlight(s) ==> m.id < s.nextId
    ensures var t := Moved(n, s, Write);
      InFlight(t) == InFlight(s) + {t.sampler.m} && DetectorOk(n, t) && t.sampler.m !in s.out && t.sampler.m !in s.back
  {
    var t := Moved(n, s, Write);
    assert t.sampler.m !in InFlight(s);
  }

  /** The example whose number comes next takes the slot. */
  lemma WriteIdKeeps(n: nat, s: Table)
    requires 2 <= n <= 64 && Inv(n, s) && Possible(n, s, Write)
    ensures Inv(n, Moved(n, s, Write))
  {
    hide Unmarked;
    hide AllHear;
    hide Core;
    hide Spread;
    hide InFlight;
    hide DetectorOk;
    StaysUnmarked(n, s, Write);
    KeepsHearing(n, s, Write);
    NewIsNew(n, s);
    WriteFlight(n, s);
    var Claimed(dest, at) := s.sampler;
    WriteKeeps(n, s.slots, s.ids, s.nextId, InFlight(s), s.done, dest, at);
  }

  /** A message moves on: the table stays as it is. */
  lemma MessageKeeps(n: nat, s: Table, e: Move)
    requires 2 <= n <= 64 && Inv(n, s) && Possible(n, s, e) && (e.Send? || e.Answer?)
    ensures Inv(n, Moved(n, s, e))
  {
    hide Unmarked;
    hide AllHear;
    hide Core;
    hide Spread;
    StaysUnmarked(n, s, e);
    KeepsHearing(n, s, e);
    var t := Moved(n, s, e);
    assert InFlight(t) == InFlight(s);
  }

  lemma ReceiveKeeps(n: nat, s: Table, m: Msg)
    requires 2 <= n <= 64 && Inv(n, s) && Possible(n, s, Receive(m))
    ensures Inv(n, Moved(n, s, Receive(m)))
  {
    assert Label(s.answered, m.id) != EOS_LABEL;
    hide Unmarked;
    hide AllHear;
    hide Core;
    hide Spread;
    StaysUnmarked(n, s, Receive(m));
    KeepsHearing(n, s, Receive(m));
    assert InFlight(Moved(n, s, Receive(m))) == InFlight(s);
  }

  /** A broadcast, a token or a post: the table stays as it is. */
  lemma SignalKeeps(n: nat, s: Table, e: Move)
    requires 2 <= n <= 64 && Inv(n, s) && Possible(n, s, e) && (e.ReadLine? || e.Hear? || e.Wake? || e.Post?)
    ensures Inv(n, Moved(n, s, e))
  {
    hide Unmarked;
    hide AllHear;
    hide Core;
    hide Spread;
    StaysUnmarked(n, s, e);
    KeepsHearing(n, s, e);
    assert InFlight(Moved(n, s, e)) == InFlight(s);
  }

  /** The detector's search finds the very slot the sampler put the example in. */
  lemma FoundAtOnce(n: nat, s: Table, i: int)
    requires n >= 2 && Inv(n, s) && Possible(n, s, Find(i))
    ensures i == s.detector.m.at && Inv(n, Moved(n, s, Find(i)))
  {
    hide Unmarked;
    hide AllHear;
    StaysUnmarked(n, s, Find(i));
    KeepsHearing(n, s, Find(i));
    var t := Moved(n, s, Find(i));
    var m := s.detector.m;
    assert m in InFlight(s);
    assert Placed(n, s.slots, s.ids, m);
    hide Core;
    hide Spread;
    assert InFlight(t) == InFlight(s);
  }

  lemma ReleaseLeaves(n: nat, s: Table, found: seq<nat>)
    requires n >= 2 && DetectorOk(n, s) && Possible(n, s, Release(found))
    ensures InFlight(Moved(n, s, Release(found))) == InFlight(s) - {s.detector.m}
    ensures DetectorOk(n, Moved(n, s, Release(found)))
  {
    hide Char;
  }

  lemma UsedIsPlaced(n: nat, s: Table)
    requires Inv(n, s) && s.detector.Using?
    ensures var m := s.detector.m;
      && m in InFlight(s) && m.at == s.detector.at < |s.slots| && s.slots[m.at] == m.dest && 1 <= m.dest < n
      && m.at != ClaimedAt(s.sampler)
  {
    assert s.detector.m in InFlight(s);
    assert Placed(n, s.slots, s.ids, s.detector.m);
  }

  lemma SamplerStays(n: nat, s: Table, t: Table, m: Msg)
    requires SamplerOk(n, s) && m.at < |s.slots| && m.at != ClaimedAt(s.sampler)
    requires t == s.(log := t.log, slots := s.slots[m.at := m.dest + n], done := s.done + {m.id}, detector := Posting)
    ensures SamplerOk(n, t)
  {
  }

  lemma ReleaseFrees(n: nat, s: Table, found: seq<nat>)
    requires 2 <= n <= 64 && Inv(n, s) && Possible(n, s, Release(found))
    ensures Inv(n, Moved(n, s, Release(found)))
  {
    hide Core;
    hide Spread;
    hide Char;
    hide InFlight;
    hide DetectorOk;
    hide SamplerOk;
    hide Unmarked;
    hide AllHear;
    StaysUnmarked(n, s, Release(found));
    KeepsHearing(n, s, Release(found));
    var t := Moved(n, s, Release(found));
    var m := s.detector.m;
    ReleaseLeaves(n, s, found);
    UsedIsPlaced(n, s);
    ReleaseKeeps(n, s.slots, s.ids, s.nextId, InFlight(s), s.done, ClaimedAt(s.sampler), m);
    assert t
        == s.(log := s.log + found, slots := s.slots[m.at := m.dest + n], done := s.done + {m.id}, detector := Posting);
    ReleaseSpreads(n, s.slots, LastDest(s.sampler), m.at);
    SamplerStays(n, s, t, m);
  }

  lemma ClaimApart(n: nat, s: Table)
    requires Inv(n, s)
    ensures forall m :: m in InFlight(s) ==> m.at != ClaimedAt(s.sampler)
  {
  }

  lemma FreshOk(n: nat, size: nat, s: Table)
    requires n >= 2 && size >= n && Fresh(n, size, s)
    ensures Inv(n, s)
  {
    assert InFlight(s) == {};
  }

  /** What holds in every reachable state, with at most 64 ranks and at least a slot for each. */
  lemma {:induction false} EveryRun(n: nat, size: nat, s: Table, moves: seq<Move>)
    requires 2 <= n <= 64 && size >= n && Fresh(n, size, s)
    ensures Inv(n, After(n, s, moves))
  {
    hide Inv;
    hide Moved;
    if |moves| == 0 {
      FreshOk(n, size, s);
    } else {
      EveryRun(n, size, s, moves[..|moves| - 1]);
      var t, e := After(n, s, moves[..|moves| - 1]), moves[|moves| - 1];
      if Possible(n, t, e) {
        match e
        case Look => LookKeeps(n, t);
        case Write => WriteIdKeeps(n, t);
        case Find(i) => FoundAtOnce(n, t, i);
        case Release(found) => ReleaseFrees(n, t, found);
        case Receive(m) => ReceiveKeeps(n, t, m);
        case Send => MessageKeeps(n, t, e);
        case Answer(_, _) => MessageKeeps(n, t, e);
        case _ => SignalKeeps(n, t, e);
      }
    }
  }

  /** Over any run, whatever labels are broadcast: each example in flight is in a slot of its own that
      no other one and no claim touches, the detector never waits for a missing slot, each example
      is done once, and none is answered with the mark. */
  lemma SlotsAreOwned(n: nat, size: nat, s: Table, moves: seq<Move>)
    requires 2 <= n <= 64 && size >= n && Fresh(n, size, s)
    ensures var t := After(n, s, moves);
      && Distinct(InFlight(t)) && Counted(t.nextId, InFlight(t), t.done) && !t.detector.Missing?
      && (forall m :: m in InFlight(t) ==> Placed(n, t.slots, t.ids, m) && m.at != ClaimedAt(t.sampler))
      && Unmarked(n, t)
  {
    EveryRun(n, size, s, moves);
  }

  /** The sampler never takes the slot of an example in flight. */
  lemma NeverOverwrites(n: nat, size: nat, s: Table, moves: seq<Move>, m: Msg)
    requires 2 <= n <= 64 && size >= n && Fresh(n, size, s)
    requires m in InFlight(After(n, s, moves)) && Possible(n, After(n, s, moves), Look)
    ensures var t := Moved(n, After(n, s, moves), Look);
      t.sampler.Claimed? ==> t.sampler.at != m.at
  {
    EveryRun(n, size, s, moves);
    hide Moved;
    var t := After(n, s, moves);
    LookKeeps(n, t);
    LookFlight(n, t);
    ClaimApart(n, Moved(n, t, Look));
  }

  /** The release of the example frees its slot for the rank. */
  ghost predicate FreesFor(n: nat, s: Table, m: Msg, dest: nat)
    requires n > 0
  {
    m.dest == dest && m.at < |s.slots| && FreeFor(Char(s.slots[m.at] + n), dest, n)
  }

  lemma ReleaseToCome(n: nat, s: Table)
    requires 2 <= n <= 64 && Inv(n, s) && s.sampler.Waiting? && s.tokens == 0 && !s.detector.Posting?
    ensures exists m :: m in InFlight(s) && FreesFor(n, s, m, s.sampler.dest)
  {
    hide Unmarked;
    hide AllHear;
    hide Spread;
    hide Counted;
    hide Char;
    var d := s.sampler.dest;
    var i :| 0 <= i < |s.slots| && s.slots[i] == d;
    var m :| m in InFlight(s) && m.at == i;
    assert Placed(n, s.slots, s.ids, m);
    ReleasedIsFree(d, n);
    hide FreeFor;
  }

  /** No wakeup is lost: in every reachable state a sampler that waits for a slot of a rank has a
      token, or a post to come, or an example of that rank is in flight whose release frees a slot
      for it. */
  lemma WaiterServed(n: nat, size: nat, s: Table, moves: seq<Move>)
    requires 2 <= n <= 64 && size >= n && Fresh(n, size, s) && After(n, s, moves).sampler.Waiting?
    ensures var t := After(n, s, moves);
      t.tokens > 0 || t.detector.Posting? || exists m :: m in InFlight(t) && FreesFor(n, t, m, t.sampler.dest)
  {
    EveryRun(n, size, s, moves);
    var t := After(n, s, moves);
    if t.tokens == 0 && !t.detector.Posting? {
      ReleaseToCome(n, t);
    }
  }

  const WAKES: Move -> nat := (e: Move) => if e.Wake? then 1 else 0
  const POSTS: Move -> nat := (e: Move) => if e.Post? then 1 else 0

  /** How often moves of a kind were made in a run. */
  ghost function Times(n: nat, s: Table, moves: seq<Move>, kind: Move -> nat): nat
    requires n >= 2
  {
    if |moves| == 0 then 0
    else
      var before, e := moves[..|moves| - 1], moves[|moves| - 1];
      Times(n, s, before, kind) + (if Possible(n, After(n, s, before), e) then kind(e) else 0)
  }

  lemma StepTokens(n: nat, s: Table, e: Move)
    requires n >= 2 && Possible(n, s, e)
    ensures Moved(n, s, e).tokens + WAKES(e) == s.tokens + POSTS(e)
  {
    hide FirstFree;
    hide Char;
    hide IsMatch;
  }

  /** The semaphore counts: it holds the detector's posts less the sampler's waits that ended. */
  lemma {:induction false} TokensCount(n: nat, s: Table, moves: seq<Move>)
    requires n >= 2 && s.tokens == 0
    ensures After(n, s, moves).tokens + Times(n, s, moves, WAKES) == Times(n, s, moves, POSTS)
  {
    hide Moved;
    hide Possible;
    if |moves| > 0 {
      var before, e := moves[..|moves| - 1], moves[|moves| - 1];
      TokensCount(n, s, before);
      if Possible(n, After(n, s, before), e) {
        StepTokens(n, After(n, s, before), e);
      }
    }
  }

  /** The label that was last stored in the record of slot i: that of the answer it was found for. */
  ghost function Stored(n: nat, s: Table, moves: seq<Move>, i: nat): nat
    requires n >= 2
  {
    if |moves| == 0 then 0
    else
      var before, e := moves[..|moves| - 1], moves[|moves| - 1];
      var t := After(n, s, before);
      if e.Find? && Possible(n, t, e) && e.i == i then Label(t.answered, t.detector.m.id)
      else Stored(n, s, before, i)
  }

  lemma StepLabels(n: nat, s: Table, e: Move, i: nat)
    requires n >= 2 && Possible(n, s, e) && i < |s.labels|
    ensures var t := Moved(n, s, e);
      && |t.labels| == |s.labels|
      && t.labels[i] == if e.Find? && e.i == i then Label(s.answered, s.detector.m.id) else s.labels[i]
  {
    hide FirstFree;
    hide Char;
    hide IsMatch;
  }

  lemma SendsLabel(n: nat, s: Table)
    requires n >= 2 && Possible(n, s, Send) && s.sampler.m.at < |s.labels|
    ensures var m := s.sampler.m;
      var t := Moved(n, s, Send);
      m.id in t.packed && t.packed[m.id] == s.labels[m.at] && t.out == s.out + {m}
  {
  }

  /** A slot's record keeps the label of the example that used the slot last, zero before the first
      one, and an example is sent with the label that its slot's record holds. */
  lemma {:induction false} RecordsKeepLabels(n: nat, size: nat, s: Table, moves: seq<Move>, i: nat)
    requires n >= 2 && Fresh(n, size, s) && i < size
    ensures var t := After(n, s, moves);
      && |t.labels| == size && t.labels[i] == Stored(n, s, moves, i)
      && (Possible(n, t, Send) && t.sampler.m.at == i ==>
            var m := t.sampler.m;
            var u := Moved(n, t, Send);
            m.id in u.packed && u.packed[m.id] == Stored(n, s, moves, i) && u.out == t.out + {m})
  {
    hide Moved;
    if |moves| > 0 {
      var before, e := moves[..|moves| - 1], moves[|moves| - 1];
      RecordsKeepLabels(n, size, s, before, i);
      if Possible(n, After(n, s, before), e) {
        StepLabels(n, After(n, s, before), e, i);
      }
    }
    var t := After(n, s, moves);
    if t.sampler.Written? && t.sampler.m.at == i {
      SendsLabel(n, t);
    }
  }
}
