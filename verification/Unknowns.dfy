/** The fixed array of unknown examples and its in-place compaction
    (src/base.c `minasHandleUnknown`, src/online-nd.c set-up). */
module Unknowns {
  import opened Points
  import opened Search

  /** A slot: an id and a pointer to the slot's own value array. */
  datatype Example = Example(id: nat, val: array<real>)

  /** What a slot holds, by value. */
  datatype Unknown = Unknown(id: nat, val: Point)

  ghost predicate UnknownsDim(us: seq<Unknown>, dim: nat) {
    forall i :: 0 <= i < |us| ==> |us[i].val| == dim
  }

  function Values(us: seq<Unknown>): (xs: seq<Point>)
    ensures |xs| == |us| && forall i :: 0 <= i < |us| ==> xs[i] == us[i].val
  {
    seq(|us|, i requires 0 <= i < |us| => us[i].val)
  }

  /** The nearest new cluster reaches the example. */
  predicate Consumed(p: Params, news: seq<Cluster>, u: Unknown)
    requires |news| > 0 && ClustersDim(news, |u.val|)
  {
    assert Looked(news, false, 0);
    var i := NearestOf(news, false, u.val, |news|);
    p.root(D2(news[i].center, u.val)) <= news[i].distanceMax
  }

  /** An example stays when no new cluster reaches it and it is not from before the last round. */
  predicate Survives(p: Params, news: seq<Cluster>, lastNDCheck: nat, u: Unknown)
    requires |news| > 0 && ClustersDim(news, |u.val|)
  {
    !Consumed(p, news, u) && u.id >= lastNDCheck
  }

  /** The stable filter of the first n unknowns. */
  function Survivors(p: Params, news: seq<Cluster>, lastNDCheck: nat, us: seq<Unknown>, n: nat): (r: seq<Unknown>)
    requires n <= |us| && |news| > 0 && ClustersDim(news, p.dim) && UnknownsDim(us, p.dim)
    ensures |r| <= n
  {
    if n == 0 then []
    else
      var r := Survivors(p, news, lastNDCheck, us, n - 1);
      if Survives(p, news, lastNDCheck, us[n - 1]) then r + [us[n - 1]] else r
  }

  /** `left` is `us` at the increasing indices `at`, and those are the ones of the first n unknowns
      whose nearest new cluster, the last of equally near ones, is too far to reach them, and whose
      id is not from before the last round. */
  ghost predicate LeftAt(p: Params, news: seq<Cluster>, lastNDCheck: nat, us: seq<Unknown>, n: nat,
                         left: seq<Unknown>, at: seq<nat>)
  {
    && n <= |us| && ClustersDim(news, p.dim) && UnknownsDim(us, p.dim)
    && |at| == |left|
    && (forall q :: 0 <= q < |at| ==> at[q] < n && left[q] == us[at[q]])
    && (forall q, r :: 0 <= q < r < |at| ==> at[q] < at[r])
    && (forall i, c :: 0 <= i < n && IsNearest(news, false, us[i].val, |news|, c) ==>
          (i in at <==> p.root(D2(news[c].center, us[i].val)) > news[c].distanceMax && us[i].id >= lastNDCheck))
  }

  /** `taken` are the indices of the first n unknowns that their nearest new cluster reaches. */
  ghost predicate TakenAt(p: Params, news: seq<Cluster>, us: seq<Unknown>, n: nat, taken: set<nat>) {
    && n <= |us| && ClustersDim(news, p.dim) && UnknownsDim(us, p.dim)
    && (forall i :: i in taken ==> i < n)
    && (forall i, c :: 0 <= i < n && IsNearest(news, false, us[i].val, |news|, c) ==>
          (i in taken <==> p.root(D2(news[c].center, us[i].val)) <= news[c].distanceMax))
  }

  lemma ConsumedByNearest(p: Params, news: seq<Cluster>, u: Unknown, c: int)
    requires |news| > 0 && ClustersDim(news, |u.val|) && IsNearest(news, false, u.val, |news|, c)
    ensures Consumed(p, news, u) <==> p.root(D2(news[c].center, u.val)) <= news[c].distanceMax
  {
    hide D2;
    assert Looked(news, false, 0);
    NearestUnique(news, false, u.val, |news|, c, NearestOf(news, false, u.val, |news|));
  }

  /** `left` is `us` at the increasing indices `at`, all below n. */
  ghost predicate Picks(us: seq<Unknown>, n: nat, left: seq<Unknown>, at: seq<nat>) {
    && n <= |us| && |at| == |left|
    && (forall q :: 0 <= q < |at| ==> at[q] < n && left[q] == us[at[q]])
    && (forall q, r :: 0 <= q < r < |at| ==> at[q] < at[r])
  }

  lemma PickNone(us: seq<Unknown>)
    ensures Picks(us, 0, [], [])
  {
  }

  lemma PickOne(us: seq<Unknown>, n: nat, left: seq<Unknown>, at: seq<nat>)
    requires Picks(us, n, left, at) && n < |us|
    ensures n !in at && Picks(us, n + 1, left, at) && Picks(us, n + 1, left + [us[n]], at + [n])
  {
  }

  /** Where the stable filter finds what it keeps. */
  lemma {:induction false} SurvivorsStay(p: Params, news: seq<Cluster>, lastNDCheck: nat, us: seq<Unknown>, n: nat)
    returns (at: seq<nat>)
    requires n <= |us| && |news| > 0 && ClustersDim(news, p.dim) && UnknownsDim(us, p.dim)
    ensures Picks(us, n, Survivors(p, news, lastNDCheck, us, n), at)
    ensures forall i :: 0 <= i < n ==> (i in at <==> Survives(p, news, lastNDCheck, us[i]))
  {
    hide D2;
    hide IsNearest;
    hide Looked;
    hide NearestOf;
    hide Consumed;
    hide Survives;
    hide Picks;
    if n == 0 {
      at := [];
      PickNone(us);
    } else {
      var before := SurvivorsStay(p, news, lastNDCheck, us, n - 1);
      PickOne(us, n - 1, Survivors(p, news, lastNDCheck, us, n - 1), before);
      if Survives(p, news, lastNDCheck, us[n - 1]) {
        at := before + [n - 1];
        forall i | 0 <= i < n ensures i in at <==> Survives(p, news, lastNDCheck, us[i]) {
          assert i in at <==> i in before || i == n - 1;
        }
      } else {
        at := before;
      }
    }
  }

  /** The stable filter leaves what the two conditions say. */
  lemma SurvivorsLeft(p: Params, news: seq<Cluster>, lastNDCheck: nat, us: seq<Unknown>, n: nat)
    returns (at: seq<nat>)
    requires n <= |us| && |news| > 0 && ClustersDim(news, p.dim) && UnknownsDim(us, p.dim)
    ensures LeftAt(p, news, lastNDCheck, us, n, Survivors(p, news, lastNDCheck, us, n), at)
  {
    hide Dist2;
    hide Consumed;
    hide Survivors;
    at := SurvivorsStay(p, news, lastNDCheck, us, n);
    forall i, c | 0 <= i < n && IsNearest(news, false, us[i].val, |news|, c)
      ensures i in at <==> p.root(D2(news[c].center, us[i].val)) > news[c].distanceMax && us[i].id >= lastNDCheck
    {
      ConsumedByNearest(p, news, us[i], c);
    }
  }

  /** `taken` are the ones of the first n unknowns that are consumed. */
  ghost predicate Takes(p: Params, news: seq<Cluster>, us: seq<Unknown>, n: nat, taken: set<nat>) {
    && |news| > 0 && n <= |us| && ClustersDim(news, p.dim) && UnknownsDim(us, p.dim)
    && (forall i :: i in taken ==> i < n)
    && (forall i :: 0 <= i < n ==> (i in taken <==> Consumed(p, news, us[i])))
  }

  lemma TakeNone(p: Params, news: seq<Cluster>, us: seq<Unknown>)
    requires |news| > 0 && ClustersDim(news, p.dim) && UnknownsDim(us, p.dim)
    ensures Takes(p, news, us, 0, {})
  {
  }

  lemma TakeOne(p: Params, news: seq<Cluster>, us: seq<Unknown>, n: nat, taken: set<nat>)
    requires Takes(p, news, us, n, taken) && n < |us|
    ensures n !in taken && Takes(p, news, us, n + 1, if Consumed(p, news, us[n]) then taken + {n} else taken)
  {
    hide Consumed;
  }

  lemma TakesReached(p: Params, news: seq<Cluster>, us: seq<Unknown>, n: nat, taken: set<nat>)
    requires Takes(p, news, us, n, taken)
    ensures TakenAt(p, news, us, n, taken)
  {
    hide Dist2;
    hide Consumed;
    forall i, c | 0 <= i < n && IsNearest(news, false, us[i].val, |news|, c)
      ensures i in taken <==> p.root(D2(news[c].center, us[i].val)) <= news[c].distanceMax
    {
      ConsumedByNearest(p, news, us[i], c);
    }
  }

  /** After `ex` slots the kept ones stand in front and the rest is untouched. */
  ghost predicate Packed(v: seq<Unknown>, was: seq<Unknown>, kept: seq<Unknown>, ex: nat) {
    |kept| <= ex <= |was| <= |v| && v[..|kept|] == kept && v[ex..|was|] == was[ex..]
  }

  lemma PackOne(v: seq<Unknown>, was: seq<Unknown>, kept: seq<Unknown>, ex: nat)
    requires Packed(v, was, kept, ex) && ex < |was|
    ensures v[ex] == was[ex]
    ensures Packed(v[|kept| := v[ex]], was, kept, ex + 1)
    ensures Packed(v[|kept| := v[ex]], was, kept + [was[ex]], ex + 1)
  {
    assert v[ex] == v[ex..|was|][0];
    var w := v[|kept| := v[ex]];
    assert w[ex + 1..|was|] == v[ex..|was|][1..];
  }

  /** The test of the compaction loop: the search among the new clusters answers, as there is
      at least one, and so the program's check that it is not NULL never fails. */
  method IsConsumed(p: Params, news: seq<Cluster>, id: nat, x: Point) returns (consumed: bool)
    requires |news| > 0 && ClustersDim(news, |x|)
    ensures consumed == Consumed(p, news, Unknown(id, x))
    ensures exists n :: IsNearest(news, false, x, |news|, n)
              && (consumed <==> p.root(D2(news[n].center, x)) <= news[n].distanceMax)
  {
    var distance, nearest := NearestOfAll(|x|, news, x, p.root);
    assert 0 <= nearest < |news|;
    assert Looked(news, false, 0);
    NearestUnique(news, false, x, |news|, nearest, NearestOf(news, false, x, |news|));
    consumed := distance <= news[nearest].distanceMax;
  }

  class UnknownBuffer {
    const dim: nat
    const slots: array<Example>
    var size: nat
    /** The value arrays the slots own; no two slots share one. */
    ghost const rows: seq<array<real>>

    ghost predicate Valid()
      reads this, slots, rows
    {
      && size <= slots.Length == |rows|
      && (forall i :: 0 <= i < |rows| ==> slots[i].val == rows[i] && rows[i].Length == dim)
      && (forall i, j :: 0 <= i < j < |rows| ==> rows[i] != rows[j])
    }

    /** All slots, by value. */
    ghost function View(): (v: seq<Unknown>)
      requires Valid()
      reads this, slots, rows
      ensures |v| == slots.Length && UnknownsDim(v, dim)
      ensures forall i :: 0 <= i < |v| ==> v[i] == Unknown(slots[i].id, slots[i].val[..])
    {
      seq(slots.Length, i requires 0 <= i < slots.Length && Valid() reads this, slots, rows =>
        Unknown(slots[i].id, slots[i].val[..]))
    }

    /** The unknowns held now. */
    ghost function Contents(): (v: seq<Unknown>)
      requires Valid()
      reads this, slots, rows
      ensures |v| == size && UnknownsDim(v, dim)
    {
      View()[..size]
    }

    constructor (dim: nat, capacity: nat)
      ensures Valid() && this.dim == dim && slots.Length == capacity && size == 0
      ensures fresh(slots) && forall i :: 0 <= i < |rows| ==> fresh(rows[i])
    {
      this.dim := dim;
      var first := new real[dim];
      var a := new Example[capacity](i => Example(0, first));
      ghost var rs: seq<array<real>> := [];
      for i := 0 to capacity
        invariant |rs| == i
        invariant forall j :: 0 <= j < i ==> a[j].val == rs[j] && rs[j].Length == dim && fresh(rs[j])
        invariant forall j, k :: 0 <= j < k < i ==> rs[j] != rs[k]
        invariant fresh(a)
      {
        var row := new real[dim];
        a[i] := Example(0, row);
        rs := rs + [row];
      }
      slots := a;
      rows := rs;
      size := 0;
    }

    /** Overwrites slot `dst` by a deep copy of an example. */
    method CopyInto(dst: nat, id: nat, val: array<real>)
      requires Valid() && dst < slots.Length && val.Length == dim
      requires forall i :: 0 <= i < |rows| && rows[i] == val ==> i != dst
      modifies slots, rows[dst]
      ensures Valid()
      ensures View() == old(View())[dst := Unknown(id, old(val[..]))]
    {
      slots[dst] := slots[dst].(id := id);
      var row := slots[dst].val;
      for d := 0 to dim
        modifies row
        invariant forall e :: 0 <= e < d ==> row[e] == old(val[e])
        invariant val != row && val[..] == old(val[..])
        invariant forall i :: 0 <= i < |rows| && i != dst ==> rows[i][..] == old(rows[i][..])
      {
        row[d] := val[d];
      }
      assert row[..] == old(val[..]);
      assert Valid();
      ghost var v := old(View())[dst := Unknown(id, old(val[..]))];
      forall i | 0 <= i < |rows| ensures View()[i] == v[i] {}
    }

    /** Appends a deep copy. */
    method Store(id: nat, val: array<real>)
      requires Valid() && size < slots.Length && val.Length == dim && val !in rows
      modifies this`size, slots, rows[size]
      ensures Valid() && size == old(size) + 1
      ensures Contents() == old(Contents()) + [Unknown(id, old(val[..]))]
    {
      CopyInto(size, id, val);
      ghost var v := View();
      size := size + 1;
      assert View() == v;
    }

    /** The values of all unknowns, as the training set of a round. */
    method ReadValues() returns (xs: seq<Point>)
      requires Valid()
      ensures xs == Values(Contents())
    {
      xs := [];
      for i := 0 to size
        invariant |xs| == i && forall j :: 0 <= j < i ==> xs[j] == Contents()[j].val
      {
        xs := xs + [slots[i].val[..]];
      }
    }

    /** The body of the compaction loop: the slot moves down, then its fate is decided. */
    method ClassifyAndShift(p: Params, news: seq<Cluster>, lastNDCheck: nat, ex: nat, to: nat)
      returns (discarded: bool, consumed: bool)
      requires Valid() && |news| > 0 && ClustersDim(news, dim) && to <= ex < size
      modifies slots, rows
      ensures Valid()
      ensures View() == old(View())[to := old(View())[ex]]
      ensures consumed == Consumed(p, news, old(View())[ex])
      ensures Survives(p, news, lastNDCheck, old(View())[ex]) == (!consumed && !discarded)
    {
      hide Consumed;
      if to < ex {
        CopyInto(to, slots[ex].id, slots[ex].val);
      }
      consumed := IsConsumed(p, news, slots[ex].id, slots[ex].val[..]);
      discarded := slots[ex].id < lastNDCheck;
    }

    /** The compaction loop of a novelty round: what stays is the stable filter of what was there. */
    method Compact(p: Params, news: seq<Cluster>, lastNDCheck: nat) returns (garbageCollected: nat, consumed: nat)
      requires Valid() && p.dim == dim && |news| > 0 && ClustersDim(news, dim)
      modifies this`size, slots, rows
      ensures Valid()
      ensures Contents() == Survivors(p, news, lastNDCheck, old(Contents()), old(size))
      ensures size + garbageCollected + consumed == old(size)
      ensures exists at :: LeftAt(p, news, lastNDCheck, old(Contents()), old(size), Contents(), at)
      ensures exists taken :: TakenAt(p, news, old(Contents()), old(size), taken) && |taken| == consumed
    {
      hide Consumed;
      hide Survives;
      hide D2;
      hide IsNearest;
      hide View;
      hide LeftAt;
      hide TakenAt;
      hide Takes;
      ghost var was, n := Contents(), size;
      garbageCollected, consumed := 0, 0;
      ghost var kept: seq<Unknown>, taken: set<nat> := [], {};
      TakeNone(p, news, was);
      for ex := 0 to size
        invariant Valid() && size == n
        invariant kept == Survivors(p, news, lastNDCheck, was, ex)
        invariant |kept| == ex - (garbageCollected + consumed)
        invariant Packed(View(), was, kept, ex)
        invariant Takes(p, news, was, ex, taken) && |taken| == consumed
      {
        TakeOne(p, news, was, ex, taken);
        PackOne(View(), was, kept, ex);
        var discarded, reached := ClassifyAndShift(p, news, lastNDCheck, ex, ex - (garbageCollected + consumed));
        if reached {
          consumed := consumed + 1;
          taken := taken + {ex};
        } else if discarded {
          garbageCollected := garbageCollected + 1;
        } else {
          kept := kept + [was[ex]];
        }
      }
      size := size - (garbageCollected + consumed);
      ghost var at := SurvivorsLeft(p, news, lastNDCheck, was, n);
      TakesReached(p, news, was, n, taken);
    }
  }
}
