/**
 The queue over weak load-linked / store-conditional: the swap and the CAS of tail are retry loops of single accesses,
 which may fail for no reason, with steps of other threads in between.
 Every run is a run of the queue with one-step swap and CAS.
 */
module QueueByLlsc {
  import opened Options
  import opened QueueProtocol
  import opened QueueInvariant
  import opened QueueTheorems
  import opened QueueByLock

  /** `linked` holds what each thread that is between load-linking and store-conditioning tail has read,
      `reserved` the threads whose reservation on tail stands. */
  datatype MState = MState(s: State, linked: map<Owner, Ref>, reserved: set<Owner>)

  /** `Other` is any step of the queue that is not a swap or a CAS of tail. */
  datatype MAction =
    | Other(a: Action)
    | LLTail(o: Owner)
    | SCTail(o: Owner, spurious: bool)
    | Lose(o: Owner)

  predicate MInit(m: MState) {
    Init(m.s) && m.linked == map[] && m.reserved == {}
  }

  predicate NotSwapOrCas(m: MState, a: Action) {
    match a
    case Swap(_) => false
    case Consume => !m.s.consumer.Closing?
    case _ => true
  }

  predicate MEnabled(m: MState, ma: MAction) {
    match ma
    case Other(a) => Enabled(m.s, a) && NotSwapOrCas(m, a)
    case LLTail(o) => AtTail(m.s, o) && o !in m.linked
    case SCTail(o, _) => AtTail(m.s, o) && o in m.linked
    case Lose(o) => o in m.reserved
  }

  /** Reads and reserves; the consumer's CAS loop ends here if tail is not its element. */
  function DoLLTail(m: MState, o: Owner): MState
    requires MEnabled(m, LLTail(o))
  {
    if o == ConsumerThread && m.s.mem.tail != m.s.consumer.elt then
      m.(s := m.s.(consumer := Spinning(m.s.consumer.elt)), reserved := m.reserved + {o})
    else
      m.(linked := m.linked[o := m.s.mem.tail], reserved := m.reserved + {o})
  }

  /** Stores the element, or null for the CAS, if the reservation stands; else the loop starts over. */
  function DoSCTail(m: MState, o: Owner, spurious: bool): MState
    requires MEnabled(m, SCTail(o, spurious))
  {
    var s := m.s;
    if o !in m.reserved || spurious then
      m.(linked := m.linked - {o}, reserved := m.reserved - {o})
    else
      match o
      case ProducerThread(p) =>
        var e := s.producers[p].elt;
        MState(s.(mem := s.mem.(tail := e),
                  producers := s.producers[p := Swapped(e, m.linked[o])],
                  swapped := s.swapped + [e],
                  swapper := s.swapper + [p]),
               m.linked - {o}, {})
      case ConsumerThread =>
        var e := s.consumer.elt;
        MState(s.(mem := s.mem.(tail := REL_NULL), consumer := Unlinked(e), dequeued := s.dequeued + [e]),
               m.linked - {o}, {})
  }

  function MDo(m: MState, ma: MAction): MState
    requires MEnabled(m, ma)
  {
    match ma
    case Other(a) => m.(s := Do(m.s, a))
    case LLTail(o) => DoLLTail(m, o)
    case SCTail(o, spurious) => DoSCTail(m, o, spurious)
    case Lose(o) => m.(reserved := m.reserved - {o})
  }

  predicate MIsRun(m: MState, acts: seq<MAction>)
    decreases acts
  {
    acts == [] || (MEnabled(m, acts[0]) && MIsRun(MDo(m, acts[0]), acts[1..]))
  }

  function MExec(m: MState, acts: seq<MAction>): MState
    requires MIsRun(m, acts)
    decreases acts
  {
    if acts == [] then m else MExec(MDo(m, acts[0]), acts[1..])
  }

  /** While the reservation stands, tail is what the thread has read; the CAS goes on only with its own element. */
  ghost predicate MInv(m: MState) {
    forall o <- m.linked ::
      && AtTail(m.s, o)
      && (o in m.reserved ==> m.linked[o] == m.s.mem.tail)
      && (o == ConsumerThread ==> m.linked[o] == m.s.consumer.elt)
  }

  /** A loop takes effect at the store-conditional that succeeds, or at the load-link of a CAS that mismatches. */
  function MMatching(m: MState, ma: MAction): Option<Action>
    requires MEnabled(m, ma)
  {
    match ma
    case Other(a) => Some(a)
    case LLTail(o) => if o == ConsumerThread && m.s.mem.tail != m.s.consumer.elt then Some(Consume) else None
    case SCTail(o, spurious) =>
      if o !in m.reserved || spurious then None
      else (match o case ProducerThread(p) => Some(Swap(p)) case ConsumerThread => Some(Consume))
    case Lose(_) => None
  }

  lemma OtherKeepsTail(s: State, a: Action)
    requires Enabled(s, a) && !a.Swap? && !(a == Consume && s.consumer.Closing?)
    ensures Do(s, a).mem.tail == s.mem.tail
    ensures forall o :: AtTail(s, o) ==>
              AtTail(Do(s, a), o) && (o == ConsumerThread ==> Do(s, a).consumer == s.consumer)
  {
  }

  lemma MStep(m: MState, ma: MAction)
    requires MInv(m) && MEnabled(m, ma)
    ensures MInv(MDo(m, ma))
    ensures match MMatching(m, ma)
            case None => MDo(m, ma).s == m.s
            case Some(a) => Enabled(m.s, a) && MDo(m, ma).s == Do(m.s, a)
  {
    var m' := MDo(m, ma);
    if ma.Other? {
      OtherKeepsTail(m.s, ma.a);
    }
    forall o <- m'.linked
      ensures AtTail(m'.s, o)
      ensures o in m'.reserved ==> m'.linked[o] == m'.s.mem.tail
      ensures o == ConsumerThread ==> m'.linked[o] == m'.s.consumer.elt
    {
      if o in m.linked {
        assert AtTail(m.s, o);
      }
    }
  }

  lemma {:induction false} MRunRefines(m: MState, acts: seq<MAction>) returns (bs: seq<Action>)
    requires MInv(m) && MIsRun(m, acts)
    ensures IsRun(m.s, bs) && Exec(m.s, bs) == MExec(m, acts).s
    decreases acts
  {
    if acts == [] {
      bs := [];
    } else {
      MStep(m, acts[0]);
      var rest := MRunRefines(MDo(m, acts[0]), acts[1..]);
      var b := MMatching(m, acts[0]);
      if b.Some? {
        StepThenRun(m.s, b.value, rest);
        bs := [b.value] + rest;
      } else {
        bs := rest;
      }
    }
  }

  /** So the queue keeps its order and its invariant over weak LL/SC, and ABA on tail does no harm. */
  lemma MFifo(m0: MState, acts: seq<MAction>)
    requires MInit(m0) && MIsRun(m0, acts)
    ensures Inv(MExec(m0, acts).s) && InOrder(MExec(m0, acts).s)
  {
    var bs := MRunRefines(m0, acts);
    Fifo(m0.s, bs);
    InitInv(m0.s);
    RunInv(m0.s, bs);
  }

  // ---------------------------------------------------------------- nothing that the queue can do is missing

  lemma {:induction false} MExecConcat(x: MState, acts: seq<MAction>, more: seq<MAction>)
    requires MIsRun(x, acts) && MIsRun(MExec(x, acts), more)
    ensures MIsRun(x, acts + more) && MExec(x, acts + more) == MExec(MExec(x, acts), more)
    decreases acts
  {
    if acts == [] {
      assert acts + more == more;
    } else {
      assert (acts + more)[1..] == acts[1..] + more;
      MExecConcat(MDo(x, acts[0]), acts[1..], more);
    }
  }

  /** A run, and one more step. */
  lemma MExtend(x0: MState, acts: seq<MAction>, x: MState, a: MAction) returns (acts': seq<MAction>, x': MState)
    requires MIsRun(x0, acts) && MExec(x0, acts) == x && MEnabled(x, a)
    ensures x' == MDo(x, a) && acts' == acts + [a] && MIsRun(x0, acts') && MExec(x0, acts') == x'
  {
    acts', x' := acts + [a], MDo(x, a);
    assert [a][1..] == [] && MExec(x, [a]) == MExec(x', []);
    MExecConcat(x0, acts, [a]);
  }

  /** A load-link and a store-conditional that does not fail for no reason do what the one step does; so does
      a load-link alone if the CAS mismatches. */
  lemma MLoop(x: MState, o: Owner) returns (acts: seq<MAction>)
    requires x.linked == map[] && AtTail(x.s, o)
    ensures MIsRun(x, acts) && MExec(x, acts).linked == map[]
    ensures match o
            case ProducerThread(p) => Enabled(x.s, Swap(p)) && MExec(x, acts).s == Do(x.s, Swap(p))
            case ConsumerThread => Enabled(x.s, Consume) && MExec(x, acts).s == Do(x.s, Consume)
  {
    var x1, x2;
    acts, x1 := MExtend(x, [], x, LLTail(o));
    if o in x1.linked {
      acts, x2 := MExtend(x, acts, x1, SCTail(o, false));
      assert x2.linked == map[];
    }
  }

  lemma MEvent(x: MState, a: Action) returns (acts: seq<MAction>)
    requires x.linked == map[] && Enabled(x.s, a)
    ensures MIsRun(x, acts) && MExec(x, acts).linked == map[] && MExec(x, acts).s == Do(x.s, a)
  {
    if a.Swap? {
      acts := MLoop(x, ProducerThread(a.p));
    } else if a.Consume? && x.s.consumer.Closing? {
      acts := MLoop(x, ConsumerThread);
    } else {
      var x';
      acts, x' := MExtend(x, [], x, Other(a));
    }
  }

  lemma {:induction false} MRealize(x: MState, acts: seq<Action>) returns (more: seq<MAction>)
    requires x.linked == map[] && IsRun(x.s, acts)
    ensures MIsRun(x, more) && MExec(x, more).s == Exec(x.s, acts)
    decreases acts
  {
    more := [];
    if acts != [] {
      more := MEvent(x, acts[0]);
      var rest := MRealize(MExec(x, more), acts[1..]);
      MExecConcat(x, more, rest);
      more := more + rest;
    }
  }

  /** Every run of the queue with one-step swap and CAS is also possible over weak LL/SC. */
  lemma MComplete(x0: MState, acts: seq<Action>) returns (more: seq<MAction>)
    requires MInit(x0) && IsRun(x0.s, acts)
    ensures MIsRun(x0, more) && MExec(x0, more).s == Exec(x0.s, acts)
  {
    more := MRealize(x0, acts);
  }

  /** From every reachable state a thread that is in a loop on tail and runs alone gets out of it, with the effect
      of the one step: at this store-conditional or after one more round. */
  lemma MFinishesAlone(x: MState, o: Owner) returns (acts: seq<MAction>)
    requires MInv(x) && AtTail(x.s, o)
    ensures MIsRun(x, acts) && |acts| <= 3 && o !in MExec(x, acts).linked
    ensures match o
            case ProducerThread(p) => Enabled(x.s, Swap(p)) && MExec(x, acts).s == Do(x.s, Swap(p))
            case ConsumerThread => Enabled(x.s, Consume) && MExec(x, acts).s == Do(x.s, Consume)
  {
    var x' := x;
    acts := [];
    if o in x.linked {
      acts, x' := MExtend(x, [], x, SCTail(o, false));
    }
    if o !in x.linked || o !in x.reserved {
      acts, x' := MExtend(x, acts, x', LLTail(o));
      if o in x'.linked {
        acts, x' := MExtend(x, acts, x', SCTail(o, false));
      }
    }
  }
}
