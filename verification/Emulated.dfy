/**
 The retry loops that build the primitives from LL/SC or from CAS, and the thin calls around them:
 each operation is one of three read-modify-write kernels and a function of the value the kernel has read.
 */
module Emulated {
  import opened AtomicSpec

  datatype Kernel = KAdd(val: Int32) | KCas(expected: Int32, desired: Int32) | KSwap(val: Int32)

  predicate IsRmw(op: Op) {
    !op.Load? && !op.Store?
  }

  /** The loop an operation ends up in. */
  function KernelOf(op: Op): Kernel
    requires IsRmw(op)
  {
    match op
    case Add(x) => KAdd(x)
    case Incr => KAdd(1)
    case Decr => KAdd(-1)
    case DecrAndTest => KAdd(-1)
    case FetchAdd(x) => KAdd(x)
    case FetchIncr => KAdd(1)
    case FetchDecr => KAdd(-1)
    case Cas(o, n) => KCas(o, n)
    case Swap(x) => KSwap(x)
  }

  /** What the calls around the loop make of the value it has read. */
  function FromPrev(op: Op, prev: Int32): Int32
    requires IsRmw(op)
  {
    match op
    case Add(_) => 0
    case Incr => 0
    case Decr => 0
    case DecrAndTest => if prev == 1 then 1 else 0
    case _ => prev
  }

  /** The value the loop tries to store after reading prev. */
  function Stored(k: Kernel, prev: Int32): Int32 {
    match k
    case KAdd(x) => Wrap(prev + x)
    case KCas(_, n) => n
    case KSwap(x) => x
  }

  /** A compare-and-swap that has read something else leaves its loop without storing. */
  predicate GivesUp(k: Kernel, prev: Int32) {
    k.KCas? && prev != k.expected
  }

  /** A kernel that stores from an up-to-date prev does what the reference does; in particular the test
      prev == 1 of the emulated decr_and_test agrees with the reference's test of the new value. */
  lemma KernelMeetsReference(op: Op, v: Int32)
    requires IsRmw(op)
    ensures FromPrev(op, v) == Result(op, v)
    ensures After(op, v) == if GivesUp(KernelOf(op), v) then v else Stored(KernelOf(op), v)
  {
  }
}
