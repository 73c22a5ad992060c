/** The round-robin over the ranks other than the root. */
module Ranks {

  /** The rank whose turn it is after another's: the root is skipped. */
  function NextDest(dest: nat, mpiSize: nat): (d: nat)
    requires dest < mpiSize && mpiSize >= 2
    ensures 1 <= d < mpiSize
  {
    if dest + 1 == mpiSize then 1 else dest + 1
  }

  /** The do-while that both samplers use. */
  method NextDestination(dest0: nat, mpiSize: nat) returns (dest: nat)
    requires dest0 < mpiSize && mpiSize >= 2
    ensures dest == NextDest(dest0, mpiSize)
  {
    dest := (dest0 + 1) % mpiSize;
    if dest == 0 {
      dest := (dest + 1) % mpiSize;
    }
  }
}
