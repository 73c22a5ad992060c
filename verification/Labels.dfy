/** Class labels: the unknown mark, the end-of-stream mark, and those a novelty may get. */
module Labels {

  const UNKNOWN_LABEL: nat := 45
  const EOS_LABEL: nat := 87

  /** A label that `identify` may answer: of a cluster of the model, or unknown. */
  predicate MayAnswer(known: seq<nat>, tag: nat) {
    tag == UNKNOWN_LABEL || tag in known
  }

  /** `isalpha` on the ASCII range. */
  predicate IsAlpha(c: nat) {
    65 <= c <= 90 || 97 <= c <= 122
  }

  /** Labels no novelty may get: letters, and the mark of unknown examples. */
  predicate Reserved(c: nat) {
    IsAlpha(c) || c == UNKNOWN_LABEL
  }

  function SkipReserved(l: nat): (r: nat)
    ensures r >= l && !Reserved(r) && forall m :: l <= m < r ==> Reserved(m)
    decreases 128 - l
  {
    if l < 128 && Reserved(l) then SkipReserved(l + 1) else l
  }

  function NextLabel(l: nat): (r: nat)
    ensures r > l && !Reserved(r) && forall m :: l < m < r ==> Reserved(m)
  {
    SkipReserved(l + 1)
  }

  /** The do-while that moves on to the next label: the least unreserved one above. */
  method BumpLabel(label0: nat) returns (next: nat)
    ensures next == NextLabel(label0)
  {
    next := label0 + 1;
    while next < 128 && Reserved(next)
      invariant SkipReserved(next) == NextLabel(label0)
      decreases 128 - next
    {
      next := next + 1;
    }
  }
}
