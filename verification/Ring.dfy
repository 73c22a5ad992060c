/** The circular example buffer (old-code/src/reboot/CircularExampleBuffer.c/.h):
    its locked sections, as a refinement of a bounded FIFO queue that swaps pointers. */
module Ring {

  /** Example pointers are opaque names. */
  type ExamplePtr = nat

  datatype Ring = Ring(cells: seq<ExamplePtr>, head: nat, tail: nat)

  ghost predicate RingOk(r: Ring) {
    r.head < |r.cells| && r.tail < |r.cells|
  }

  /** The cell after i. */
  function Succ(i: nat, size: nat): (j: nat)
    requires i < size
    ensures j == if i + 1 == size then 0 else i + 1
  {
    (i + 1) % size
  }

  /** `isBufferFull`. */
  predicate IsFull(r: Ring)
    requires RingOk(r)
  {
    Succ(r.head, |r.cells|) == r.tail
  }

  /** `isBufferEmpty`. */
  predicate IsEmpty(r: Ring) {
    r.head == r.tail
  }

  /** `bufferLength`, as the header defines it. */
  function MacroLength(r: Ring): int {
    if r.head > r.tail then r.head - r.tail else r.head + |r.cells| - r.tail
  }

  /** How many examples the ring holds. */
  function Len(r: Ring): (n: nat)
    requires RingOk(r)
    ensures n < |r.cells|
  {
    if r.head >= r.tail then r.head - r.tail else r.head + |r.cells| - r.tail
  }

  /** Index i places after `tail`. */
  function At(r: Ring, i: nat): (j: nat)
    requires RingOk(r) && i < |r.cells|
    ensures j < |r.cells|
  {
    if r.tail + i < |r.cells| then r.tail + i else r.tail + i - |r.cells|
  }

  /** The queue the ring stands for. */
  function Queue(r: Ring): (q: seq<ExamplePtr>)
    requires RingOk(r)
    ensures |q| == Len(r)
  {
    seq(Len(r), i requires 0 <= i < Len(r) => r.cells[At(r, i)])
  }

  /** Full means capacity size-1 is reached, empty means nothing is held; and the header's
      length is right exactly when the ring is not empty. */
  lemma FullEmptyLength(r: Ring)
    requires RingOk(r)
    ensures IsFull(r) <==> Len(r) == |r.cells| - 1
    ensures IsEmpty(r) <==> Len(r) == 0
    ensures MacroLength(r) == Len(r) <==> !IsEmpty(r)
  {
    hide Succ;
  }

  /** What the locked section of `CEB_enqueue` does to a ring that is not full. */
  function Enqueued(r: Ring, ex: ExamplePtr): (s: Ring)
    requires RingOk(r)
    ensures RingOk(s) && |s.cells| == |r.cells|
  {
    Ring(r.cells[r.head := ex], Succ(r.head, |r.cells|), r.tail)
  }

  /** What the locked section of `CEB_dequeue` does to a ring that is not empty. */
  function Dequeued(r: Ring, ex: ExamplePtr): (s: Ring)
    requires RingOk(r)
    ensures RingOk(s) && |s.cells| == |r.cells|
  {
    Ring(r.cells[r.tail := ex], r.head, Succ(r.tail, |r.cells|))
  }

  lemma EnqueueLength(r: Ring, ex: ExamplePtr)
    requires RingOk(r) && !IsFull(r)
    ensures Len(Enqueued(r, ex)) == Len(r) + 1
  {
    hide Succ;
  }

  lemma DequeueLength(r: Ring, ex: ExamplePtr)
    requires RingOk(r) && !IsEmpty(r)
    ensures Len(Dequeued(r, ex)) + 1 == Len(r)
  {
    hide Succ;
  }

  /** Enqueue appends the caller's example and hands back another pointer; none is lost or copied. */
  lemma EnqueueRefines(r: Ring, ex: ExamplePtr)
    requires RingOk(r) && !IsFull(r)
    ensures Queue(Enqueued(r, ex)) == Queue(r) + [ex]
    ensures multiset(Enqueued(r, ex).cells) + multiset{r.cells[r.head]} == multiset(r.cells) + multiset{ex}
  {
    hide Succ;
    var s := Enqueued(r, ex);
    assert Len(s) == Len(r) + 1;
    assert At(r, Len(r)) == r.head;
    forall i | 0 <= i < Len(r) ensures Queue(s)[i] == Queue(r)[i] {
      assert At(s, i) == At(r, i) != r.head;
    }
  }

  /** Dequeue removes the oldest example and leaves the caller's pointer in its place. */
  lemma DequeueRefines(r: Ring, ex: ExamplePtr)
    requires RingOk(r) && !IsEmpty(r)
    ensures Queue(r) == [r.cells[r.tail]] + Queue(Dequeued(r, ex))
    ensures multiset(Dequeued(r, ex).cells) + multiset{r.cells[r.tail]} == multiset(r.cells) + multiset{ex}
  {
    hide Succ;
    var s := Dequeued(r, ex);
    assert Len(s) + 1 == Len(r);
    forall i | 0 <= i < Len(s) ensures Queue(s)[i] == Queue(r)[i + 1] {
      assert At(s, i) == At(r, i + 1) != r.tail;
    }
    assert Queue(r)[0] == r.cells[r.tail];
  }

  class CircularExampleBuffer {
    const data: array<ExamplePtr>
    var head: nat
    var tail: nat

    ghost predicate Valid()
      reads this
    {
      head < data.Length && tail < data.Length
    }

    ghost function State(): (r: Ring)
      requires Valid()
      reads this, data
      ensures RingOk(r)
    {
      Ring(data[..], head, tail)
    }

    /** `CEB_init`: one fresh example per cell. */
    constructor (bufferSize: nat, fill: seq<ExamplePtr>)
      requires bufferSize >= 1 && |fill| == bufferSize
      ensures Valid() && State() == Ring(fill, 0, 0) && Queue(State()) == []
      ensures fresh(data)
    {
      head, tail := 0, 0;
      var cells := new ExamplePtr[bufferSize];
      for i := 0 to bufferSize
        invariant fresh(cells) && forall j :: 0 <= j < i ==> cells[j] == fill[j]
      {
        cells[i] := fill[i];
      }
      data := cells;
    }

    /** The locked section of `CEB_enqueue`: gives up when full, else swaps. */
    method TryEnqueue(ex: ExamplePtr) returns (stored: bool, swp: ExamplePtr)
      requires Valid()
      modifies this`head, data
      ensures Valid()
      ensures stored <==> !IsFull(old(State()))
      ensures stored ==> State() == Enqueued(old(State()), ex) && swp == old(State()).cells[old(head)]
      ensures !stored ==> State() == old(State()) && swp == ex
    {
      stored, swp := false, ex;
      if (head + 1) % data.Length != tail {
        var h := head;
        head := (head + 1) % data.Length;
        swp := data[h];
        data[h] := ex;
        stored := true;
      }
    }

    /** The locked section of `CEB_dequeue`: gives up when empty, else swaps. */
    method TryDequeue(ex: ExamplePtr) returns (taken: bool, swp: ExamplePtr)
      requires Valid()
      modifies this`tail, data
      ensures Valid()
      ensures taken <==> !IsEmpty(old(State()))
      ensures taken ==> State() == Dequeued(old(State()), ex) && swp == old(State()).cells[old(tail)]
      ensures !taken ==> State() == old(State()) && swp == ex
    {
      taken, swp := false, ex;
      if head != tail {
        var t := tail;
        tail := (tail + 1) % data.Length;
        swp := data[t];
        data[t] := ex;
        taken := true;
      }
    }
  }
}
