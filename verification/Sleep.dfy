/** Putting stale clusters to sleep and waking them (src/base.c `minasHandleSleep`, `restoreSleep`). */
module Sleep {
  import opened Points
  import opened Ledger
  import opened Sums

  /** Subtraction of unsigned 64-bit values. */
  function Sub64(a: nat, b: nat): (d: nat)
    ensures b <= a ==> d == a - b
    ensures a < b <= a + 0x1_0000_0000_0000_0000 ==> d == 0x1_0000_0000_0000_0000 - (b - a)
  {
    if b <= a then a - b else (a - b) % 0x1_0000_0000_0000_0000
  }

  /** Storing an id in a 32-bit field. */
  function Trunc32(a: nat): (r: nat)
    ensures r < 0x1_0000_0000 && (a < 0x1_0000_0000 ==> r == a)
  {
    a % 0x1_0000_0000
  }

  predicate Stale(p: Params, c: Cluster, currId: nat) {
    Sub64(currId, c.latestMatchId) > p.forgetThreshold
  }

  /** The loop of `minasHandleSleep` from cluster k on: the model and the sleep counter it leaves. */
  function Drowse(p: Params, cs: seq<Cluster>, currId: nat, counter: nat, k: nat): (r: (seq<Cluster>, nat))
    requires k <= |cs|
    ensures |r.0| == |cs|
    decreases |cs| - k
  {
    if k == |cs| then (cs, counter)
    else if cs[k].isSleep then Drowse(p, cs, currId, counter, k + 1)
    else
      var (cs', counter') := if Stale(p, cs[k], currId)
        then (cs[k := cs[k].(isSleep := true)], counter + 1)
        else (cs, counter);
      if counter' >= 2 * p.k then (cs', counter') else Drowse(p, cs', currId, counter', k + 1)
  }

  /** Only sleep flags change, only from awake to asleep, and only on stale clusters. */
  ghost predicate OnlyStaleSlept(p: Params, cs: seq<Cluster>, ds: seq<Cluster>, currId: nat) {
    |cs| == |ds| && forall i :: 0 <= i < |cs| ==>
      ds[i] == cs[i] || (!cs[i].isSleep && Stale(p, cs[i], currId) && ds[i] == cs[i].(isSleep := true))
  }

  /** The counter moves with the number of sleepers, and stops at 2k or after one more. */
  lemma {:induction false} DrowseCounts(p: Params, cs: seq<Cluster>, currId: nat, counter: nat, k: nat)
    requires k <= |cs|
    ensures var (ds, c) := Drowse(p, cs, currId, counter, k);
      && OnlyStaleSlept(p, cs, ds, currId)
      && c >= counter && c - counter == Sum(ds, ASLEEP) - Sum(cs, ASLEEP)
      && (c <= counter + 1 || c <= 2 * p.k)
    decreases |cs| - k
  {
    hide Stale;
    hide Sum;
    if k < |cs| {
      if cs[k].isSleep {
        DrowseCounts(p, cs, currId, counter, k + 1);
      } else if Stale(p, cs[k], currId) {
        var cs' := cs[k := cs[k].(isSleep := true)];
        SumUpdate(cs, k, cs[k].(isSleep := true), ASLEEP);
        if counter + 1 < 2 * p.k {
          DrowseCounts(p, cs', currId, counter + 1, k + 1);
        }
      } else if counter < 2 * p.k {
        DrowseCounts(p, cs, currId, counter, k + 1);
      }
    }
  }

  /** The clusters before `stop` that were awake and had not matched for longer than the threshold
      sleep, and nothing else changed; the counter moved with the sleepers. The loop went on after
      every awake cluster that left the counter below 2k, and stopped after the first that did not. */
  ghost predicate DozedUntil(p: Params, was: seq<Cluster>, before: nat, currId: nat, from: nat,
                             now: seq<Cluster>, counter: nat, stop: nat)
  {
    && from <= stop <= |was| == |now|
    && (forall i :: 0 <= i < |was| ==>
          now[i] == if from <= i < stop && !was[i].isSleep && Sub64(currId, was[i].latestMatchId) > p.forgetThreshold
                    then was[i].(isSleep := true) else was[i])
    && counter == before + Sum(now, ASLEEP) - Sum(was, ASLEEP)
    && (stop < |was| ==> stop > from && !was[stop - 1].isSleep && counter >= 2 * p.k)
    && (forall j :: from <= j < stop - 1 && !was[j].isSleep ==>
          before + Sum(now[..j + 1], ASLEEP) - Sum(was[..j + 1], ASLEEP) < 2 * p.k)
  }

  /** One more stale cluster in front. */
  lemma DozeStale(p: Params, cs: seq<Cluster>, before: nat, currId: nat, k: nat, now: seq<Cluster>, counter: nat,
                  stop: nat)
    requires k < |cs| && !cs[k].isSleep && Stale(p, cs[k], currId) && before + 1 < 2 * p.k
    requires DozedUntil(p, cs[k := cs[k].(isSleep := true)], before + 1, currId, k + 1, now, counter, stop)
    ensures DozedUntil(p, cs, before, currId, k, now, counter, stop)
  {
    hide Sum;
    hide Sub64;
    var c := cs[k].(isSleep := true);
    var ds := cs[k := c];
    SumUpdate(cs, k, c, ASLEEP);
    forall j | k <= j < stop - 1 && !cs[j].isSleep
      ensures before + Sum(now[..j + 1], ASLEEP) - Sum(cs[..j + 1], ASLEEP) < 2 * p.k
    {
      SumUpdate(cs[..j + 1], k, c, ASLEEP);
      assert ds[..j + 1] == cs[..j + 1][k := c];
      assert j > k ==> !ds[j].isSleep;
      assert j == k ==> now[..j + 1] == ds[..j + 1];
    }
  }

  /** One more cluster in front that stays as it is. */
  lemma DozePast(p: Params, cs: seq<Cluster>, before: nat, currId: nat, k: nat, now: seq<Cluster>, counter: nat,
                 stop: nat)
    requires k < |cs| && (cs[k].isSleep || (!Stale(p, cs[k], currId) && before < 2 * p.k))
    requires DozedUntil(p, cs, before, currId, k + 1, now, counter, stop)
    ensures DozedUntil(p, cs, before, currId, k, now, counter, stop)
  {
    hide Sum;
    hide Sub64;
    assert now[..k + 1] == cs[..k + 1];
  }

  /** The loop stops here. */
  lemma DozeLast(p: Params, cs: seq<Cluster>, before: nat, currId: nat, k: nat, now: seq<Cluster>, counter: nat)
    requires k < |cs| && !cs[k].isSleep && counter >= 2 * p.k
    requires (now, counter) == if Stale(p, cs[k], currId) then (cs[k := cs[k].(isSleep := true)], before + 1)
                               else (cs, before)
    ensures DozedUntil(p, cs, before, currId, k, now, counter, k + 1)
  {
    hide Sum;
    SumUpdate(cs, k, cs[k].(isSleep := true), ASLEEP);
  }

  lemma DozeNone(p: Params, cs: seq<Cluster>, before: nat, currId: nat)
    ensures DozedUntil(p, cs, before, currId, |cs|, cs, before, |cs|)
  {
  }

  /** What the loop does, in terms of where it stops. */
  lemma {:induction false} DrowseStops(p: Params, cs: seq<Cluster>, currId: nat, counter: nat, k: nat)
    returns (stop: nat)
    requires k <= |cs|
    ensures var (ds, c) := Drowse(p, cs, currId, counter, k); DozedUntil(p, cs, counter, currId, k, ds, c, stop)
    decreases |cs| - k
  {
    hide Stale;
    hide DozedUntil;
    var (ds, c) := Drowse(p, cs, currId, counter, k);
    if k == |cs| {
      stop := k;
      DozeNone(p, cs, counter, currId);
    } else if cs[k].isSleep {
      stop := DrowseStops(p, cs, currId, counter, k + 1);
      DozePast(p, cs, counter, currId, k, ds, c, stop);
    } else if Stale(p, cs[k], currId) && counter + 1 < 2 * p.k {
      stop := DrowseStops(p, cs[k := cs[k].(isSleep := true)], currId, counter + 1, k + 1);
      DozeStale(p, cs, counter, currId, k, ds, c, stop);
    } else if !Stale(p, cs[k], currId) && counter < 2 * p.k {
      stop := DrowseStops(p, cs, currId, counter, k + 1);
      DozePast(p, cs, counter, currId, k, ds, c, stop);
    } else {
      stop := k + 1;
      DozeLast(p, cs, counter, currId, k, ds, c);
    }
  }

  /** When sleeping is tried at all, at least one cluster stays awake. */
  lemma DrowseLeavesOneAwake(p: Params, cs: seq<Cluster>, currId: nat, counter: nat)
    requires p.k >= 1 && counter == Sum(cs, ASLEEP) && |cs| - counter > 2 * p.k
    ensures var (ds, c) := Drowse(p, cs, currId, counter, 0); c == Sum(ds, ASLEEP) < |ds|
  {
    DrowseCounts(p, cs, currId, counter, 0);
  }

  /** The model after `restoreSleep` when something slept. */
  function Woken(cs: seq<Cluster>, currId: nat): (r: seq<Cluster>)
    ensures |r| == |cs|
    ensures forall i :: 0 <= i < |cs| ==> r[i] == cs[i].(latestMatchId := Trunc32(currId), isSleep := false)
  {
    seq(|cs|, i requires 0 <= i < |cs| => cs[i].(latestMatchId := Trunc32(currId), isSleep := false))
  }

  lemma WokenAllAwake(cs: seq<Cluster>, currId: nat)
    ensures Sum(Woken(cs, currId), ASLEEP) == 0
    ensures Sum(Woken(cs, currId), SEEN) == Sum(cs, SEEN)
    ensures Sum(Woken(cs, currId), MATCHED) == Sum(cs, MATCHED)
  {
    SumZero(Woken(cs, currId), ASLEEP);
    SumSame(Woken(cs, currId), cs, SEEN);
    SumSame(Woken(cs, currId), cs, MATCHED);
  }
}
