/**
 Relative pointers: an element is named by its offset from the base at which a process has mapped the shared segment.
 */
module RelAddr {
  import opened QueueProtocol
  import opened QueueTheorems

  /** Number of addresses: size_t wraps modulo this, on 32-bit and on 64-bit machines. */
  const WORDS_32: nat := 0x1_0000_0000
  const WORDS_64: nat := 0x1_0000_0000_0000_0000

  predicate IsWordSize(w: nat) {
    w == WORDS_32 || w == WORDS_64
  }

  /** OPA_Shm_rel_to_abs: the base plus the offset, in machine arithmetic. */
  function RelToAbs(w: nat, base: nat, offset: nat): nat
    requires IsWordSize(w)
  {
    (base + offset) % w
  }

  /** OPA_Shm_abs_to_rel: the address minus the base, in machine arithmetic. */
  function AbsToRel(w: nat, base: nat, address: nat): nat
    requires IsWordSize(w)
  {
    (address - base) % w
  }

  /** Reduction of a number less than one turn away from the range. */
  lemma Reduce(w: nat, a: int)
    requires IsWordSize(w) && 0 - w <= a < 2 * w
    ensures a % w == if a < 0 then a + w else if a < w then a else a - w
  {
    if w == WORDS_32 {
      assert a % WORDS_32 == if a < 0 then a + WORDS_32 else if a < WORDS_32 then a else a - WORDS_32;
    } else {
      assert a % WORDS_64 == if a < 0 then a + WORDS_64 else if a < WORDS_64 then a else a - WORDS_64;
    }
  }

  /** The two conversions undo each other, also where the addition or the subtraction wraps around;
      exactly the base itself becomes the null pointer. */
  lemma RoundTrip(w: nat, base: nat, x: nat)
    requires IsWordSize(w) && base < w && x < w
    ensures RelToAbs(w, base, AbsToRel(w, base, x)) == x
    ensures AbsToRel(w, base, RelToAbs(w, base, x)) == x
    ensures AbsToRel(w, base, x) == REL_NULL <==> x == base
  {
    Reduce(w, x - base);
    Reduce(w, base + AbsToRel(w, base, x));
    Reduce(w, base + x);
    Reduce(w, RelToAbs(w, base, x) - base);
  }

  /** Reducing a summand first makes no difference. */
  lemma ReduceFirst(w: nat, a: int, d: int)
    requires IsWordSize(w)
    ensures (a % w + d) % w == (a + d) % w
  {
    if w == WORDS_32 {
      assert (a % WORDS_32 + d) % WORDS_32 == (a + d) % WORDS_32;
    } else {
      assert (a % WORDS_64 + d) % WORDS_64 == (a + d) % WORDS_64;
    }
  }

  /** The null offset is the base, and displacement is kept in both directions: what lies d above an element lies
      d above its address, as the `next` field of an element does. */
  lemma Displacement(w: nat, base: nat, offset: nat, address: nat, d: nat)
    requires IsWordSize(w) && base < w
    ensures RelToAbs(w, base, REL_NULL) == base
    ensures RelToAbs(w, base, offset + d) == (RelToAbs(w, base, offset) + d) % w
    ensures AbsToRel(w, base, address + d) == (AbsToRel(w, base, address) + d) % w
  {
    Reduce(w, base);
    ReduceFirst(w, base + offset, d);
    ReduceFirst(w, address - base, d);
  }

  /** Without wrap-around the offset is the distance from the base, upwards. */
  lemma Upwards(w: nat, base: nat, offset: nat)
    requires IsWordSize(w) && base + offset < w
    ensures RelToAbs(w, base, offset) - base == offset && AbsToRel(w, base, base + offset) == offset
  {
    Reduce(w, base + offset);
    Reduce(w, offset);
  }

  /** Where a process with another base sees the same element. */
  function Seen(w: nat, from: nat, to: nat, address: nat): nat
    requires IsWordSize(w)
  {
    RelToAbs(w, to, AbsToRel(w, from, address))
  }

  /** Both processes see the same layout: what is d apart for one is d apart for the other. */
  lemma SameLayout(w: nat, from: nat, to: nat, address: nat, d: nat)
    requires IsWordSize(w) && from < w && to < w
    ensures Seen(w, from, to, from) == to
    ensures Seen(w, from, to, address + d) == (Seen(w, from, to, address) + d) % w
  {
    Reduce(w, from - from);
    Reduce(w, to);
    var o := AbsToRel(w, from, address);
    Displacement(w, from, 0, address, d);
    ReduceFirst(w, o + d, to);
    ReduceFirst(w, to + o, d);
  }

  /** In every run, what one process enqueues at base1 + o another dequeues at base2 + o, in the same order: the i-th
      element that comes back is, in the consumer's mapping, the i-th one that was swapped in, in the producer's. */
  lemma SameElements(w: nat, base1: nat, base2: nat, s0: State, acts: seq<Action>, i: nat)
    requires IsWordSize(w) && base1 < w && base2 < w && Init(s0) && IsRun(s0, acts)
    requires i < |Exec(s0, acts).returned| && i < |Exec(s0, acts).swapped| && Exec(s0, acts).swapped[i] < w
    ensures var s := Exec(s0, acts);
            && RelToAbs(w, base2, s.returned[i]) == Seen(w, base1, base2, RelToAbs(w, base1, s.swapped[i]))
            && AbsToRel(w, base2, RelToAbs(w, base2, s.returned[i]))
               == AbsToRel(w, base1, RelToAbs(w, base1, s.swapped[i]))
  {
    Fifo(s0, acts);
    var s := Exec(s0, acts);
    assert s.returned[i] == s.swapped[i];
    RoundTrip(w, base1, s.swapped[i]);
    RoundTrip(w, base2, s.returned[i]);
  }
}
