/** What the clusters of a model have seen, and how many sleep. */
module Ledger {
  import opened Points
  import opened Sums

  const SEEN: Cluster -> nat := (c: Cluster) => c.nMatches + c.nMisses
  const MATCHED: Cluster -> nat := (c: Cluster) => c.nMatches
  const MISSED: Cluster -> nat := (c: Cluster) => c.nMisses
  const ASLEEP: Cluster -> nat := (c: Cluster) => if c.isSleep then 1 else 0

  /** All clusters sleep exactly when as many sleep as there are. */
  lemma {:induction false} SomeAwake(cs: seq<Cluster>)
    ensures Sum(cs, ASLEEP) <= |cs|
    ensures Sum(cs, ASLEEP) == |cs| <==> forall i :: 0 <= i < |cs| ==> cs[i].isSleep
    ensures Sum(cs, ASLEEP) == 0 <==> forall i :: 0 <= i < |cs| ==> !cs[i].isSleep
  {
    if |cs| > 0 {
      var ds := cs[..|cs| - 1];
      SomeAwake(ds);
      assert forall i :: 0 <= i < |ds| ==> cs[i] == ds[i];
    }
  }
}
