/** Sums of a weight over a sequence. */
module Sums {

  /** Sum of a weight over a sequence. */
  function Sum<T>(cs: seq<T>, f: T -> nat): (s: nat) {
    if |cs| == 0 then 0 else Sum(cs[..|cs| - 1], f) + f(cs[|cs| - 1])
  }

  lemma SumAppend<T>(cs: seq<T>, c: T, f: T -> nat)
    ensures Sum(cs + [c], f) == Sum(cs, f) + f(c)
  {
    assert (cs + [c])[..|cs|] == cs;
  }

  lemma {:induction false} SumConcat<T>(cs: seq<T>, ds: seq<T>, f: T -> nat)
    ensures Sum(cs + ds, f) == Sum(cs, f) + Sum(ds, f)
  {
    if |ds| == 0 {
      assert cs + ds == cs;
    } else {
      SumConcat(cs, ds[..|ds| - 1], f);
      assert (cs + ds)[..|cs + ds| - 1] == cs + ds[..|ds| - 1];
    }
  }

  lemma {:induction false} SumUpdate<T>(cs: seq<T>, i: nat, c: T, f: T -> nat)
    requires i < |cs|
    ensures Sum(cs[i := c], f) + f(cs[i]) == Sum(cs, f) + f(c)
  {
    if i == |cs| - 1 {
      assert cs[i := c][..|cs| - 1] == cs[..|cs| - 1];
    } else {
      SumUpdate(cs[..|cs| - 1], i, c, f);
      assert cs[i := c][..|cs| - 1] == cs[..|cs| - 1][i := c];
    }
  }

  lemma {:induction false} SumSame<T>(cs: seq<T>, ds: seq<T>, f: T -> nat)
    requires |cs| == |ds| && forall i :: 0 <= i < |cs| ==> f(cs[i]) == f(ds[i])
    ensures Sum(cs, f) == Sum(ds, f)
  {
    if |cs| > 0 {
      SumSame(cs[..|cs| - 1], ds[..|cs| - 1], f);
    }
  }

  lemma {:induction false} SumZero<T>(cs: seq<T>, f: T -> nat)
    requires forall i :: 0 <= i < |cs| ==> f(cs[i]) == 0
    ensures Sum(cs, f) == 0
  {
    if |cs| > 0 {
      SumZero(cs[..|cs| - 1], f);
    }
  }

  lemma SumOne<T>(x: T, f: T -> nat)
    ensures Sum([x], f) == f(x)
  {
    assert [x][..0] == [];
  }

  lemma SumHead<T>(q: seq<T>, f: T -> nat)
    requires |q| > 0
    ensures Sum(q, f) == f(q[0]) + Sum(q[1..], f)
  {
    assert q == [q[0]] + q[1..];
    SumConcat([q[0]], q[1..], f);
    SumOne(q[0], f);
  }

  lemma {:induction false} SumAtMost<T>(cs: seq<T>, f: T -> nat, g: T -> nat)
    requires forall i :: 0 <= i < |cs| ==> f(cs[i]) <= g(cs[i])
    ensures Sum(cs, f) <= Sum(cs, g)
  {
    if |cs| > 0 {
      SumAtMost(cs[..|cs| - 1], f, g);
    }
  }

  /** Weights of at most one add up to the length exactly if none is zero. */
  lemma {:induction false} AllCounted<T>(cs: seq<T>, f: T -> nat)
    requires forall i :: 0 <= i < |cs| ==> f(cs[i]) <= 1
    ensures Sum(cs, f) <= |cs|
    ensures Sum(cs, f) == |cs| <==> forall i :: 0 <= i < |cs| ==> f(cs[i]) == 1
  {
    if |cs| > 0 {
      AllCounted(cs[..|cs| - 1], f);
      assert forall i :: 0 <= i < |cs| - 1 ==> cs[..|cs| - 1][i] == cs[i];
      assert Sum(cs, f) == |cs| ==> f(cs[|cs| - 1]) == 1;
    }
  }

  lemma {:induction false} SumPlus<T>(cs: seq<T>, f: T -> nat, g: T -> nat, h: T -> nat)
    requires forall i :: 0 <= i < |cs| ==> h(cs[i]) == f(cs[i]) + g(cs[i])
    ensures Sum(cs, h) == Sum(cs, f) + Sum(cs, g)
  {
    if |cs| > 0 {
      SumPlus(cs[..|cs| - 1], f, g, h);
    }
  }

  lemma {:induction false} SumEqual<T>(cs: seq<T>, f: T -> nat, g: T -> nat)
    requires forall i :: 0 <= i < |cs| ==> f(cs[i]) == g(cs[i])
    ensures Sum(cs, f) == Sum(cs, g)
  {
    if |cs| > 0 {
      SumEqual(cs[..|cs| - 1], f, g);
    }
  }
}
