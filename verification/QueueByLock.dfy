/**
 The queue over the lock-based primitives: the swap and the CAS of tail are not single steps but
 lock, read, compare and write, unlock, with steps of other threads in between. Every run is a run of the queue
 with one-step swap and CAS, because after initialization tail is touched by nothing else.
 */
module QueueByLock {
  import opened Options
  import opened QueueProtocol
  import opened QueueInvariant
  import opened QueueTheorems

  datatype Owner = ProducerThread(p: Tid) | ConsumerThread

  /** Where a thread is inside OPA_swap_ptr or OPA_cas_ptr. */
  datatype Section = NotIn | Locked | HasRead(prev: Ref) | HasWritten

  /** `s` holds memory, the logs and where each thread is outside the primitives. */
  datatype KState = KState(s: State, lock: Option<Owner>, section: map<Tid, Section>, csection: Section)

  /** `Plain` is any step of the queue that is not a swap or a CAS of tail. */
  datatype KAction =
    | Plain(a: Action)
    | Lock(o: Owner)
    | Read(o: Owner)
    | WriteTail(o: Owner)
    | Unlock(o: Owner)

  predicate KInit(k: KState) {
    Init(k.s) && k.lock == None && k.csection == NotIn
    && k.section == map p | p in k.s.producers :: NotIn
  }

  function SectionOf(k: KState, o: Owner): Section {
    match o
    case ConsumerThread => k.csection
    case ProducerThread(p) => if p in k.section then k.section[p] else NotIn
  }

  function SetSection(k: KState, o: Owner, sec: Section): KState {
    match o
    case ConsumerThread => k.(csection := sec)
    case ProducerThread(p) => k.(section := k.section[p := sec])
  }

  /** The thread's next access is the swap or the CAS. */
  predicate AtTail(s: State, o: Owner) {
    match o
    case ConsumerThread => s.consumer.Closing?
    case ProducerThread(p) => p in s.producers && s.producers[p].Cleared?
  }

  /** The thread that takes the step is in none of the primitives. */
  predicate OutsideSection(k: KState, a: Action) {
    match a
    case Link(p) => SectionOf(k, ProducerThread(p)) == NotIn
    case Begin(p, _) => SectionOf(k, ProducerThread(p)) == NotIn
    case IsEmpty => k.csection == NotIn
    case Consume => k.csection == NotIn && !k.s.consumer.Closing?
    case Swap(_) => false
    case Release(_) => true
  }

  predicate KEnabled(k: KState, ka: KAction) {
    match ka
    case Plain(a) => Enabled(k.s, a) && OutsideSection(k, a)
    case Lock(o) => AtTail(k.s, o) && SectionOf(k, o) == NotIn && k.lock == None
    case Read(o) => SectionOf(k, o) == Locked
    case WriteTail(o) => SectionOf(k, o).HasRead? && AtTail(k.s, o)
    case Unlock(o) => SectionOf(k, o) == HasWritten
  }

  /** Swap stores its element; CAS stores null if the value it has read is its own element.
      Both return the value they have read. */
  function DoWriteTail(k: KState, o: Owner): KState
    requires KEnabled(k, WriteTail(o))
  {
    var prev := SectionOf(k, o).prev;
    var s := k.s;
    match o
    case ProducerThread(p) =>
      var e := s.producers[p].elt;
      k.(s := s.(mem := s.mem.(tail := e),
                 producers := s.producers[p := Swapped(e, prev)],
                 swapped := s.swapped + [e],
                 swapper := s.swapper + [p]),
         section := k.section[p := HasWritten])
    case ConsumerThread =>
      var e := s.consumer.elt;
      k.(s := if prev == e
              then s.(mem := s.mem.(tail := REL_NULL), consumer := Unlinked(e), dequeued := s.dequeued + [e])
              else s.(consumer := Spinning(e)),
         csection := HasWritten)
  }

  function KDo(k: KState, ka: KAction): KState
    requires KEnabled(k, ka)
  {
    match ka
    case Plain(a) => k.(s := Do(k.s, a))
    case Lock(o) => SetSection(k, o, Locked).(lock := Some(o))
    case Read(o) => SetSection(k, o, HasRead(k.s.mem.tail))
    case WriteTail(o) => DoWriteTail(k, o)
    case Unlock(o) => SetSection(k, o, NotIn).(lock := None)
  }

  predicate KIsRun(k: KState, acts: seq<KAction>)
    decreases acts
  {
    acts == [] || (KEnabled(k, acts[0]) && KIsRun(KDo(k, acts[0]), acts[1..]))
  }

  function KExec(k: KState, acts: seq<KAction>): KState
    requires KIsRun(k, acts)
    decreases acts
  {
    if acts == [] then k else KExec(KDo(k, acts[0]), acts[1..])
  }

  /** Whoever is in a section holds the lock, and what it has read is still in tail. */
  ghost predicate KInv(k: KState) {
    forall o :: SectionOf(k, o) != NotIn ==>
      && k.lock == Some(o)
      && (SectionOf(k, o) != HasWritten ==> AtTail(k.s, o))
      && (SectionOf(k, o).HasRead? ==> SectionOf(k, o).prev == k.s.mem.tail)
  }

  /** The write is where the primitive takes effect; all its other steps are invisible. */
  function KMatching(ka: KAction): Option<Action> {
    match ka
    case Plain(a) => Some(a)
    case WriteTail(ProducerThread(p)) => Some(Swap(p))
    case WriteTail(ConsumerThread) => Some(Consume)
    case _ => None
  }

  lemma KStep(k: KState, ka: KAction)
    requires KInv(k) && KEnabled(k, ka)
    ensures KInv(KDo(k, ka))
    ensures match KMatching(ka)
            case None => KDo(k, ka).s == k.s
            case Some(a) => Enabled(k.s, a) && KDo(k, ka).s == Do(k.s, a)
  {
    var k' := KDo(k, ka);
    if ka.Plain? {
      PlainKeepsTail(k, ka.a);
    }
    forall o | SectionOf(k', o) != NotIn
      ensures k'.lock == Some(o)
      ensures SectionOf(k', o) != HasWritten ==> AtTail(k'.s, o)
      ensures SectionOf(k', o).HasRead? ==> SectionOf(k', o).prev == k'.s.mem.tail
    {
      assert SectionOf(k, o) != NotIn ==> k.lock == Some(o);
    }
  }

  /** No other step stores to tail, nor moves a thread that is in a section. */
  lemma PlainKeepsTail(k: KState, a: Action)
    requires Enabled(k.s, a) && OutsideSection(k, a)
    ensures Do(k.s, a).mem.tail == k.s.mem.tail
    ensures forall o :: SectionOf(k, o) != NotIn && AtTail(k.s, o) ==> AtTail(Do(k.s, a), o)
  {
  }

  lemma {:induction false} KRunRefines(k: KState, acts: seq<KAction>) returns (bs: seq<Action>)
    requires KInv(k) && KIsRun(k, acts)
    ensures IsRun(k.s, bs) && Exec(k.s, bs) == KExec(k, acts).s
    decreases acts
  {
    if acts == [] {
      bs := [];
    } else {
      KStep(k, acts[0]);
      var rest := KRunRefines(KDo(k, acts[0]), acts[1..]);
      var b := KMatching(acts[0]);
      bs := if b.Some? then [b.value] + rest else rest;
      assert b.Some? ==> bs[1..] == rest;
    }
  }

  /** So the queue keeps its order and its invariant over the lock-based primitives. */
  lemma KFifo(k0: KState, acts: seq<KAction>)
    requires KInit(k0) && KIsRun(k0, acts)
    ensures Inv(KExec(k0, acts).s) && InOrder(KExec(k0, acts).s)
  {
    var bs := KRunRefines(k0, acts);
    Fifo(k0.s, bs);
    InitInv(k0.s);
    RunInv(k0.s, bs);
  }

  // ---------------------------------------------------------------- nothing that the queue can do is missing

  lemma {:induction false} KExecConcat(x: KState, acts: seq<KAction>, more: seq<KAction>)
    requires KIsRun(x, acts) && KIsRun(KExec(x, acts), more)
    ensures KIsRun(x, acts + more) && KExec(x, acts + more) == KExec(KExec(x, acts), more)
    decreases acts
  {
    if acts == [] {
      assert acts + more == more;
    } else {
      assert (acts + more)[1..] == acts[1..] + more;
      KExecConcat(KDo(x, acts[0]), acts[1..], more);
    }
  }

  /** A run, and one more step. */
  lemma KExtend(x0: KState, acts: seq<KAction>, x: KState, a: KAction) returns (acts': seq<KAction>, x': KState)
    requires KIsRun(x0, acts) && KExec(x0, acts) == x && KEnabled(x, a)
    ensures x' == KDo(x, a) && acts' == acts + [a] && KIsRun(x0, acts') && KExec(x0, acts') == x'
  {
    acts', x' := acts + [a], KDo(x, a);
    assert [a][1..] == [] && KExec(x, [a]) == KExec(x', []);
    KExecConcat(x0, acts, [a]);
  }

  /** Nobody is inside one of the primitives. */
  ghost predicate KResting(x: KState) {
    x.lock == None && x.csection == NotIn && forall p <- x.section :: x.section[p] == NotIn
  }

  /** The four accesses of a primitive that nobody interrupts do what its one step does, and leave the lock free. */
  lemma KSection(x: KState, o: Owner) returns (acts: seq<KAction>)
    requires KResting(x) && AtTail(x.s, o)
    ensures KIsRun(x, acts) && KResting(KExec(x, acts))
    ensures KMatching(WriteTail(o)).Some? && Enabled(x.s, KMatching(WriteTail(o)).value)
    ensures KExec(x, acts).s == Do(x.s, KMatching(WriteTail(o)).value)
  {
    var x1, x2, x3, x4;
    acts, x1 := KExtend(x, [], x, Lock(o));
    acts, x2 := KExtend(x, acts, x1, Read(o));
    acts, x3 := KExtend(x, acts, x2, WriteTail(o));
    acts, x4 := KExtend(x, acts, x3, Unlock(o));
  }

  lemma KEvent(x: KState, a: Action) returns (acts: seq<KAction>)
    requires KResting(x) && Enabled(x.s, a)
    ensures KIsRun(x, acts) && KResting(KExec(x, acts)) && KExec(x, acts).s == Do(x.s, a)
  {
    if a.Swap? {
      acts := KSection(x, ProducerThread(a.p));
    } else if a.Consume? && x.s.consumer.Closing? {
      acts := KSection(x, ConsumerThread);
    } else {
      var x';
      acts, x' := KExtend(x, [], x, Plain(a));
    }
  }

  lemma {:induction false} KRealize(x: KState, acts: seq<Action>) returns (more: seq<KAction>)
    requires KResting(x) && IsRun(x.s, acts)
    ensures KIsRun(x, more) && KExec(x, more).s == Exec(x.s, acts)
    decreases acts
  {
    more := [];
    if acts != [] {
      more := KEvent(x, acts[0]);
      var rest := KRealize(KExec(x, more), acts[1..]);
      KExecConcat(x, more, rest);
      more := more + rest;
    }
  }

  /** Every run of the queue with one-step swap and CAS is also possible over the lock. */
  lemma KComplete(x0: KState, acts: seq<Action>) returns (more: seq<KAction>)
    requires KInit(x0) && IsRun(x0.s, acts)
    ensures KIsRun(x0, more) && KExec(x0, more).s == Exec(x0.s, acts)
  {
    more := KRealize(x0, acts);
  }

  /** From every reachable state the thread that holds the lock gets out of its primitive alone, and then nobody is
      in one. */
  lemma KSectionEnds(x: KState, o: Owner) returns (acts: seq<KAction>)
    requires KInv(x) && SectionOf(x, o) != NotIn
    ensures KIsRun(x, acts) && |acts| <= 3 && KResting(KExec(x, acts))
  {
    var x' := x;
    acts := [];
    if SectionOf(x', o) == Locked {
      acts, x' := KExtend(x, acts, x', Read(o));
    }
    if SectionOf(x', o).HasRead? {
      acts, x' := KExtend(x, acts, x', WriteTail(o));
    }
    acts, x' := KExtend(x, acts, x', Unlock(o));
    forall p <- x'.section
      ensures x'.section[p] == NotIn
    {
      assert SectionOf(x', ProducerThread(p)) == x'.section[p];
      assert SectionOf(x, ProducerThread(p)) != NotIn ==> x.lock == Some(ProducerThread(p)) == Some(o);
    }
    assert SectionOf(x, ConsumerThread) != NotIn ==> x.lock == Some(ConsumerThread) == Some(o);
  }
}
