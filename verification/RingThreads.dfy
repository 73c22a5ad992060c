/** Any number of producers and consumers on one ring, as interleaved atomic steps: the locked
    check, the posts and the waits on the two counting semaphores, which start at zero. */
module RingThreads {
  import opened Ring
  import opened Sums

  /** Where a thread stands: outside a call, before the locked check, after it found the ring
      full (or empty) and before the post, at the wait, or after the swap and before the post. */
  datatype Pc = Idle | Top | Refused | Waiting | Swapped

  /** `hand` is the example pointer the thread holds. */
  datatype Thread = Thread(producer: bool, pc: Pc, hand: ExamplePtr)

  /** `entered` and `left` record what went in and out of the queue. */
  datatype Sys = Sys(ring: Ring, fullSignal: nat, emptySignal: nat, threads: seq<Thread>,
                     entered: seq<ExamplePtr>, left: seq<ExamplePtr>)

  datatype Action = Call | Check | PostRefused | Wait | PostSwapped

  predicate Enabled(s: Sys, t: nat, a: Action)
    requires t < |s.threads|
  {
    var th := s.threads[t];
    match a
    case Call => th.pc == Idle
    case Check => th.pc == Top
    case PostRefused => th.pc == Refused
    case Wait => th.pc == Waiting && (if th.producer then s.emptySignal > 0 else s.fullSignal > 0)
    case PostSwapped => th.pc == Swapped
  }

  function WithThread(s: Sys, t: nat, th: Thread): Sys
    requires t < |s.threads|
  {
    s.(threads := s.threads[t := th])
  }

  /** A post: producers signal `fullSignal`, consumers `emptySignal`. */
  function Posted(s: Sys, producer: bool): Sys {
    if producer then s.(fullSignal := s.fullSignal + 1) else s.(emptySignal := s.emptySignal + 1)
  }

  /** The locked check and, if it passes, the swap. */
  function Checked(s: Sys, t: nat): (r: Sys)
    requires t < |s.threads| && RingOk(s.ring)
  {
    var th := s.threads[t];
    if th.producer then
      if IsFull(s.ring) then WithThread(s, t, th.(pc := Refused))
      else WithThread(s, t, th.(pc := Swapped, hand := s.ring.cells[s.ring.head]))
           .(ring := Enqueued(s.ring, th.hand), entered := s.entered + [th.hand])
    else
      if IsEmpty(s.ring) then WithThread(s, t, th.(pc := Refused))
      else WithThread(s, t, th.(pc := Swapped, hand := s.ring.cells[s.ring.tail]))
           .(ring := Dequeued(s.ring, th.hand), left := s.left + [s.ring.cells[s.ring.tail]])
  }

  function Do(s: Sys, t: nat, a: Action): (r: Sys)
    requires t < |s.threads| && RingOk(s.ring) && Enabled(s, t, a)
    ensures |r.threads| == |s.threads| && RingOk(r.ring) && |r.ring.cells| == |s.ring.cells|
  {
    var th := s.threads[t];
    match a
    case Call => WithThread(s, t, th.(pc := Top))
    case Check => Checked(s, t)
    case PostRefused => Posted(WithThread(s, t, th.(pc := Waiting)), th.producer)
    case Wait =>
      var r := WithThread(s, t, th.(pc := Top));
      if th.producer then r.(emptySignal := s.emptySignal - 1) else r.(fullSignal := s.fullSignal - 1)
    case PostSwapped => Posted(WithThread(s, t, th.(pc := Idle)), th.producer)
  }

  /** The state after a schedule; events that are not possible are passed over, so every
      interleaving of every number of calls is some schedule. */
  function Exec(s: Sys, schedule: seq<(nat, Action)>): (r: Sys)
    requires RingOk(s.ring)
    ensures |r.threads| == |s.threads| && RingOk(r.ring) && |r.ring.cells| == |s.ring.cells|
  {
    if |schedule| == 0 then s
    else
      var r := Exec(s, schedule[..|schedule| - 1]);
      var (t, a) := schedule[|schedule| - 1];
      if t < |r.threads| && Enabled(r, t, a) then Do(r, t, a) else r
  }

  /** The start: `CEB_init`, and all threads outside a call. */
  ghost predicate Start(s: Sys) {
    && RingOk(s.ring) && s.ring.head == s.ring.tail == 0
    && s.fullSignal == s.emptySignal == 0
    && (forall t :: 0 <= t < |s.threads| ==> s.threads[t].pc == Idle)
    && s.entered == s.left == []
  }

  /** Producers past seeing "full". */
  const BLOCKED_PRODUCER: Thread -> nat := (th: Thread) =>
    if th.producer && (th.pc == Refused || th.pc == Waiting) then 1 else 0
  /** Consumers past seeing "empty". */
  const BLOCKED_CONSUMER: Thread -> nat := (th: Thread) =>
    if !th.producer && (th.pc == Refused || th.pc == Waiting) then 1 else 0
  /** Consumers about to post `emptySignal`, and producers about to check. */
  const ROOM_COMING: Thread -> nat := (th: Thread) =>
    if (!th.producer && (th.pc == Refused || th.pc == Swapped)) || (th.producer && th.pc == Top) then 1 else 0
  /** Producers about to post `fullSignal`, and consumers about to check. */
  const ITEM_COMING: Thread -> nat := (th: Thread) =>
    if (th.producer && (th.pc == Refused || th.pc == Swapped)) || (!th.producer && th.pc == Top) then 1 else 0

  function Free(s: Sys): nat
    requires RingOk(s.ring)
  {
    |s.ring.cells| - 1 - Len(s.ring)
  }

  /** The counting invariant: while a producer is past seeing "full", every free slot is announced,
      by the semaphore, by a consumer about to post, or by a producer about to look again. Dually for consumers. */
  ghost predicate Announced(s: Sys)
    requires RingOk(s.ring)
  {
    && (Sum(s.threads, BLOCKED_PRODUCER) > 0 ==> Free(s) <= s.emptySignal + Sum(s.threads, ROOM_COMING))
    && (Sum(s.threads, BLOCKED_CONSUMER) > 0 ==> Len(s.ring) <= s.fullSignal + Sum(s.threads, ITEM_COMING))
  }

  lemma StepAnnounced(s: Sys, t: nat, a: Action)
    requires t < |s.threads| && RingOk(s.ring) && Enabled(s, t, a) && Announced(s)
    ensures Announced(Do(s, t, a))
  {
    hide Sum;
    hide Len;
    hide Enqueued;
    hide Dequeued;
    hide IsFull;
    hide IsEmpty;
    var r, before := Do(s, t, a), s.threads[t];
    var th := r.threads[t];
    assert r.threads == s.threads[t := th];
    SumUpdate(s.threads, t, th, BLOCKED_PRODUCER);
    SumUpdate(s.threads, t, th, BLOCKED_CONSUMER);
    SumUpdate(s.threads, t, th, ROOM_COMING);
    SumUpdate(s.threads, t, th, ITEM_COMING);
    FullEmptyLength(s.ring);
    if a == Check && before.producer && !IsFull(s.ring) {
      EnqueueLength(s.ring, before.hand);
    } else if a == Check && !before.producer && !IsEmpty(s.ring) {
      DequeueLength(s.ring, before.hand);
    }
  }

  ghost function Hands(threads: seq<Thread>): (h: seq<ExamplePtr>)
    ensures |h| == |threads| && forall t :: 0 <= t < |h| ==> h[t] == threads[t].hand
  {
    seq(|threads|, t requires 0 <= t < |threads| => threads[t].hand)
  }

  /** FIFO order and linear pointers: what entered is what left followed by what is queued, and the
      pointers in cells and hands together never change as a multiset. */
  ghost function Pointers(s: Sys): multiset<ExamplePtr> {
    multiset(s.ring.cells) + multiset(Hands(s.threads))
  }

  lemma HandsUpdate(threads: seq<Thread>, t: nat, th: Thread)
    requires t < |threads|
    ensures multiset(Hands(threads[t := th])) + multiset{threads[t].hand}
        == multiset(Hands(threads)) + multiset{th.hand}
  {
    assert Hands(threads[t := th]) == Hands(threads)[t := th.hand];
  }

  lemma Exchange(cells: multiset<ExamplePtr>, cells': multiset<ExamplePtr>, hands: multiset<ExamplePtr>,
                 hands': multiset<ExamplePtr>,
                 given: ExamplePtr, taken: ExamplePtr)
    requires cells' + multiset{taken} == cells + multiset{given}
    requires hands' + multiset{given} == hands + multiset{taken}
    ensures cells' + hands' == cells + hands
  {
    forall e ensures cells'[e] + hands'[e] == cells[e] + hands[e] {
      assert (cells' + multiset{taken})[e] == (cells + multiset{given})[e];
      assert (hands' + multiset{given})[e] == (hands + multiset{taken})[e];
    }
  }

  ghost predicate Fifo(s: Sys)
    requires RingOk(s.ring)
  {
    s.entered == s.left + Queue(s.ring)
  }

  lemma StepFifo(s: Sys, t: nat, a: Action)
    requires t < |s.threads| && RingOk(s.ring) && Enabled(s, t, a) && Fifo(s)
    ensures Fifo(Do(s, t, a)) && Pointers(Do(s, t, a)) == Pointers(s)
  {
    hide Queue;
    hide Enqueued;
    hide Dequeued;
    hide IsFull;
    hide IsEmpty;
    hide Hands;
    var r, th := Do(s, t, a), s.threads[t];
    assert r.threads == s.threads[t := r.threads[t]];
    HandsUpdate(s.threads, t, r.threads[t]);
    if a == Check && th.producer && !IsFull(s.ring) {
      EnqueueRefines(s.ring, th.hand);
      Exchange(multiset(s.ring.cells), multiset(r.ring.cells), multiset(Hands(s.threads)), multiset(Hands(r.threads)),
               th.hand, r.threads[t].hand);
    } else if a == Check && !th.producer && !IsEmpty(s.ring) {
      DequeueRefines(s.ring, th.hand);
      Exchange(multiset(s.ring.cells), multiset(r.ring.cells), multiset(Hands(s.threads)), multiset(Hands(r.threads)),
               th.hand, r.threads[t].hand);
    } else {
      assert Hands(r.threads) == Hands(s.threads);
    }
  }

  /** Every run, of any number of producers and consumers on a ring of any size: the ring is a FIFO
      queue of capacity size-1, pointers are neither lost nor duplicated, and free slots and items
      are announced to whoever waits for them. */
  lemma {:induction false} EveryRun(s: Sys, schedule: seq<(nat, Action)>)
    requires Start(s)
    ensures var r := Exec(s, schedule);
      && Fifo(r) && Announced(r) && Pointers(r) == Pointers(s)
      && |r.entered| - |r.left| == Len(r.ring) <= |s.ring.cells| - 1
  {
    if |schedule| == 0 {
      SumZero(s.threads, BLOCKED_PRODUCER);
      SumZero(s.threads, BLOCKED_CONSUMER);
    } else {
      EveryRun(s, schedule[..|schedule| - 1]);
      var r := Exec(s, schedule[..|schedule| - 1]);
      var (t, a) := schedule[|schedule| - 1];
      if t < |r.threads| && Enabled(r, t, a) {
        StepAnnounced(r, t, a);
        StepFifo(r, t, a);
      }
    }
  }

  /** How often producers, or consumers, did an action in a run. */
  function Times(s: Sys, schedule: seq<(nat, Action)>, producer: bool, action: Action): nat
    requires RingOk(s.ring)
  {
    if |schedule| == 0 then 0
    else
      var before := schedule[..|schedule| - 1];
      var r := Exec(s, before);
      var (t, a) := schedule[|schedule| - 1];
      Times(s, before, producer, action)
      + (if t < |r.threads| && Enabled(r, t, a) && a == action && r.threads[t].producer == producer then 1 else 0)
  }

  /** The semaphores count: each holds the posts of one side less the waits of the other that ended. */
  lemma {:induction false} SignalsCount(s: Sys, schedule: seq<(nat, Action)>)
    requires Start(s)
    ensures var r := Exec(s, schedule);
      && r.fullSignal + Times(s, schedule, false, Wait)
         == Times(s, schedule, true, PostRefused) + Times(s, schedule, true, PostSwapped)
      && r.emptySignal + Times(s, schedule, true, Wait)
         == Times(s, schedule, false, PostRefused) + Times(s, schedule, false, PostSwapped)
  {
    if |schedule| > 0 {
      SignalsCount(s, schedule[..|schedule| - 1]);
    }
  }

  /** Threads of one side inside a call, and those of them past the swap. */
  function InCall(producer: bool): Thread -> nat {
    (th: Thread) => if th.producer == producer && th.pc != Idle then 1 else 0
  }

  function PastSwap(producer: bool): Thread -> nat {
    (th: Thread) => if th.producer == producer && th.pc == Swapped then 1 else 0
  }

  lemma StepCalls(s: Sys, t: nat, a: Action, producer: bool)
    requires t < |s.threads| && RingOk(s.ring) && Enabled(s, t, a)
    ensures var r, mine := Do(s, t, a), s.threads[t].producer == producer;
      && Sum(r.threads, InCall(producer)) + (if mine && a == PostSwapped then 1 else 0)
         == Sum(s.threads, InCall(producer)) + (if mine && a == Call then 1 else 0)
      && Sum(r.threads, PastSwap(producer)) + (if mine && a == PostSwapped then 1 else 0)
         == Sum(s.threads, PastSwap(producer))
            + if producer then |r.entered| - |s.entered| else |r.left| - |s.left|
  {
    hide Sum;
    hide Enqueued;
    hide Dequeued;
    hide IsFull;
    hide IsEmpty;
    var r := Do(s, t, a);
    assert r.threads == s.threads[t := r.threads[t]];
    SumUpdate(s.threads, t, r.threads[t], InCall(producer));
    SumUpdate(s.threads, t, r.threads[t], PastSwap(producer));
  }

  /** A call ends only by exchanging its example: of both sides, the calls begun are those that ended
      and those under way, and the examples exchanged are one for each call that ended or is past the
      swap. */
  lemma {:induction false} CallsExchange(s: Sys, schedule: seq<(nat, Action)>, producer: bool)
    requires Start(s)
    ensures var r, ended := Exec(s, schedule), Times(s, schedule, producer, PostSwapped);
      && Times(s, schedule, producer, Call) == ended + Sum(r.threads, InCall(producer))
      && (if producer then |r.entered| else |r.left|) == ended + Sum(r.threads, PastSwap(producer))
  {
    hide Do;
    if |schedule| == 0 {
      SumZero(s.threads, InCall(producer));
      SumZero(s.threads, PastSwap(producer));
    } else {
      CallsExchange(s, schedule[..|schedule| - 1], producer);
      var r := Exec(s, schedule[..|schedule| - 1]);
      var (t, a) := schedule[|schedule| - 1];
      if t < |r.threads| && Enabled(r, t, a) {
        StepCalls(r, t, a, producer);
      }
    }
  }

  /** No thread inside a call can move. */
  ghost predicate Stuck(s: Sys) {
    forall t :: 0 <= t < |s.threads| && s.threads[t].pc != Idle ==> forall a :: !Enabled(s, t, a)
  }

  lemma StuckWaits(s: Sys, t: nat)
    requires Stuck(s) && t < |s.threads| && s.threads[t].pc != Idle
    ensures s.threads[t].pc == Waiting && (if s.threads[t].producer then s.emptySignal == 0 else s.fullSignal == 0)
  {
    assert !Enabled(s, t, Check) && !Enabled(s, t, PostRefused) && !Enabled(s, t, Wait) && !Enabled(s, t, PostSwapped);
  }

  lemma {:induction false} SomeWaiting(threads: seq<Thread>, t: nat, f: Thread -> nat)
    requires t < |threads| && f(threads[t]) > 0
    ensures Sum(threads, f) > 0
  {
    if t < |threads| - 1 {
      SomeWaiting(threads[..|threads| - 1], t, f);
    }
  }

  lemma BlockedMeansFullOrEmpty(r: Sys, t: nat)
    requires RingOk(r.ring) && Announced(r) && Stuck(r) && t < |r.threads| && r.threads[t].pc != Idle
    ensures r.threads[t].producer ==> IsFull(r.ring)
    ensures !r.threads[t].producer ==> IsEmpty(r.ring)
  {
    hide Sum;
    forall u | 0 <= u < |r.threads| && r.threads[u].pc != Idle
      ensures r.threads[u].pc == Waiting
    {
      StuckWaits(r, u);
    }
    StuckWaits(r, t);
    SumZero(r.threads, ROOM_COMING);
    SumZero(r.threads, ITEM_COMING);
    if r.threads[t].producer {
      SomeWaiting(r.threads, t, BLOCKED_PRODUCER);
    } else {
      SomeWaiting(r.threads, t, BLOCKED_CONSUMER);
    }
    FullEmptyLength(r.ring);
  }

  /** No wakeup is ever lost: when no thread inside a call can move, a waiting producer means the
      ring is full and a waiting consumer means it is empty; with two cells or more there are not
      both, so a producer and a consumer that both want to go on never block each other. */
  lemma NoLostWakeup(s: Sys, schedule: seq<(nat, Action)>, t: nat)
    requires Start(s) && Stuck(Exec(s, schedule)) && t < |s.threads|
    requires Exec(s, schedule).threads[t].pc != Idle
    ensures var r := Exec(s, schedule);
      && (r.threads[t].producer ==> IsFull(r.ring))
      && (!r.threads[t].producer ==> IsEmpty(r.ring))
      && (|s.ring.cells| >= 2 ==> forall u :: 0 <= u < |r.threads| && r.threads[u].pc != Idle ==>
            r.threads[u].producer == r.threads[t].producer)
  {
    hide Sum;
    hide Exec;
    EveryRun(s, schedule);
    var r := Exec(s, schedule);
    FullEmptyLength(r.ring);
    BlockedMeansFullOrEmpty(r, t);
    forall u | 0 <= u < |r.threads| && r.threads[u].pc != Idle && |s.ring.cells| >= 2
      ensures r.threads[u].producer == r.threads[t].producer
    {
      BlockedMeansFullOrEmpty(r, u);
    }
  }

  /** Producers and consumers that both have work left are never stuck: a run in which some producer
      and some consumer are inside a call can always go on. */
  lemma BothSidesProgress(s: Sys, schedule: seq<(nat, Action)>, t: nat, u: nat)
    requires Start(s) && |s.ring.cells| >= 2 && t < |s.threads| && u < |s.threads|
    requires var r := Exec(s, schedule);
      r.threads[t].producer && r.threads[t].pc != Idle && !r.threads[u].producer && r.threads[u].pc != Idle
    ensures var r := Exec(s, schedule);
      exists v, a :: 0 <= v < |r.threads| && r.threads[v].pc != Idle && Enabled(r, v, a)
  {
    hide Exec;
    if Stuck(Exec(s, schedule)) {
      NoLostWakeup(s, schedule, t);
    }
  }

  lemma {:induction false} NothingEnters(s: Sys, schedule: seq<(nat, Action)>)
    requires RingOk(s.ring) && |s.ring.cells| == 1 && s.entered == []
    ensures Exec(s, schedule).entered == []
  {
    if |schedule| > 0 {
      NothingEnters(s, schedule[..|schedule| - 1]);
    }
  }

  /** With one cell the ring is full and empty at once: two threads can wait on each other's
      signal in turn but nothing is ever exchanged. */
  lemma OneCellNeverStores(s: Sys, schedule: seq<(nat, Action)>)
    requires Start(s) && |s.ring.cells| == 1
    ensures Exec(s, schedule).entered == []
  {
    NothingEnters(s, schedule);
  }

  /** If every example starts in one place, it is always in one place: no two threads, and no
      thread and the ring, ever hold the same example. */
  lemma NeverShared(s: Sys, schedule: seq<(nat, Action)>, ex: ExamplePtr)
    requires Start(s) && Pointers(s)[ex] <= 1
    ensures Pointers(Exec(s, schedule))[ex] <= 1
  {
    EveryRun(s, schedule);
  }
}
