/**
 The multi-producer, single-consumer queue as a step system: any finite set of
 producer threads and one consumer thread, one step for every access to shared memory.
 An interleaving is a sequence of actions; `Do` is the effect of one action.
 */
module QueueProtocol {
  import opened Options

  /** A relative pointer: the offset of an element from the shared base address. */
  type Ref = nat
  /** Offset 0 is the null pointer, so no element lies at the base address. */
  const REL_NULL: Ref := 0

  type Tid = nat

  /** The shared words: the queue header and the `next` field of every element. */
  datatype Mem = Mem(head: Ref, tail: Ref, shadow: Ref, next: map<Ref, Ref>)

  /** The words that are written by plain stores; `tail` only changes by swap and CAS. */
  datatype Addr = HeadAddr | ShadowAddr | NextAddr(elt: Ref)
  datatype Store = Store(addr: Addr, val: Ref)

  function Write(m: Mem, st: Store): Mem {
    match st.addr
    case HeadAddr => m.(head := st.val)
    case ShadowAddr => m.(shadow := st.val)
    case NextAddr(e) => m.(next := m.next[e := st.val])
  }

  function Next(m: Mem, e: Ref): Ref {
    if e in m.next then m.next[e] else REL_NULL
  }

  /** Where a producer is in an enqueue. */
  datatype Producer =
    | Idle                           // between calls
    | Cleared(elt: Ref)              // has set elt.next to null
    | Swapped(elt: Ref, prev: Ref)   // has swapped itself into tail, not linked yet

  /** Where the consumer is: in is_empty, between calls, or in dequeue. */
  datatype Consumer =
    | Outside                // between calls, not entitled to dequeue
    | TestHead               // is_empty: shadow_head was null
    | CopyHead               // is_empty: head was not null
    | ResetHead              // is_empty: shadow_head has been set from head
    | Ready                  // is_empty has just returned 0
    | Loaded(elt: Ref)       // dequeue: has read shadow_head
    | NullNext(elt: Ref)     // dequeue: saw that elt.next is null
    | Closing(elt: Ref)      // dequeue: shadow_head is null, about to CAS tail
    | Spinning(elt: Ref)     // dequeue: the CAS lost, waiting for elt.next
    | Advancing(elt: Ref)    // dequeue: saw that elt.next is not null
    | Unlinked(elt: Ref)     // dequeue: elt is out of the queue
    | Done(elt: Ref)         // dequeue: elt.next has been cleared

  /** What one plain access of the consumer does: where it goes next and what it stores, if anything. */
  datatype Move = Move(to: Consumer, store: Option<Store>)

  /** The consumer's accesses other than the CAS, given the memory as this thread reads it. */
  function ConsumerMove(c: Consumer, view: Mem): Move
    requires !c.Closing?
  {
    match c
    case Outside => Move(if view.shadow == REL_NULL then TestHead else Ready, None)
    case TestHead => Move(if view.head == REL_NULL then Outside else CopyHead, None)
    case CopyHead => Move(ResetHead, Some(Store(ShadowAddr, view.head)))
    case ResetHead => Move(Ready, Some(Store(HeadAddr, REL_NULL)))
    case Ready => Move(Loaded(view.shadow), None)
    case Loaded(e) => Move(if Next(view, e) != REL_NULL then Advancing(e) else NullNext(e), None)
    case NullNext(e) => Move(Closing(e), Some(Store(ShadowAddr, REL_NULL)))
    case Spinning(e) => Move(if Next(view, e) != REL_NULL then Advancing(e) else Spinning(e), None)
    case Advancing(e) => Move(Unlinked(e), Some(Store(ShadowAddr, Next(view, e))))
    case Unlinked(e) => Move(Done(e), Some(Store(NextAddr(e), REL_NULL)))
    case Done(e) => Move(Outside, None)
  }

  function WriteOpt(m: Mem, st: Option<Store>): Mem {
    if st.Some? then Write(m, st.value) else m
  }

  /** The store with which an enqueue makes its element reachable. */
  function LinkStore(elt: Ref, prev: Ref): Store {
    if prev == REL_NULL then Store(HeadAddr, elt) else Store(NextAddr(prev), elt)
  }

  /** The whole system, with logs of what has happened:
      `swapped` and `swapper`: the elements in the order of the successful tail swaps, and who swapped each;
      `dequeued`: the elements in the order the consumer took them out of the list;
      `returned`: the elements in the order the dequeue calls returned them;
      `issued`: the elements each producer has enqueued or begun to enqueue, in its program order;
      `held`: the returned elements that the consumer's client has not handed on or freed. */
  datatype State = State(
    mem: Mem,
    producers: map<Tid, Producer>,
    consumer: Consumer,
    held: set<Ref>,
    swapped: seq<Ref>,
    swapper: seq<Tid>,
    dequeued: seq<Ref>,
    returned: seq<Ref>,
    issued: map<Tid, seq<Ref>>
  )

  /** The state after OPA_Queue_init, before any call: the `next` fields hold anything. */
  predicate Init(s: State) {
    && s.mem.head == s.mem.tail == s.mem.shadow == REL_NULL
    && REL_NULL !in s.mem.next
    && (forall p <- s.producers :: s.producers[p] == Idle)
    && s.consumer == Outside
    && s.held == {}
    && s.swapped == [] && s.swapper == [] && s.dequeued == [] && s.returned == []
    && s.issued == map p | p in s.producers :: []
  }

  /** The smallest system in which producers can be in each other's way: two idle producers and two elements, at
      offsets 1 and 2. */
  const START: State := State(
    Mem(REL_NULL, REL_NULL, REL_NULL, map[1 := REL_NULL, 2 := REL_NULL]),
    map[1 := Idle, 2 := Idle], Outside, {}, [], [], [], [], map[1 := [], 2 := []])

  lemma StartIsInit()
    ensures Init(START)
  {
  }

  /** An element that nobody uses: its owner may enqueue it. */
  predicate Free(s: State, e: Ref)
    requires |s.dequeued| <= |s.swapped|
  {
    && e in s.mem.next
    && e !in Q(s)
    && e !in s.held
    && !InHand(s.consumer, e)
    && forall p <- s.producers :: s.producers[p] != Cleared(e)
  }

  /** The consumer has taken e out of the list and has not returned it yet. */
  predicate InHand(c: Consumer, e: Ref) {
    c == Unlinked(e) || c == Done(e)
  }

  /** The abstract queue: swapped in, not taken out. */
  function Q(s: State): seq<Ref>
    requires |s.dequeued| <= |s.swapped|
  {
    s.swapped[|s.dequeued|..]
  }

  /** One access to shared memory by one thread. `IsEmpty` and `Consume` are the consumer's:
      the first access of is_empty, and the next access of whatever it is doing
      (in `Ready`: the first access of dequeue). `Release` is the consumer's client giving up a returned element. */
  datatype Action =
    | Begin(p: Tid, elt: Ref)
    | Swap(p: Tid)
    | Link(p: Tid)
    | IsEmpty
    | Consume
    | Release(elt: Ref)

  predicate Enabled(s: State, a: Action) {
    match a
    case Begin(p, e) =>
      && p in s.producers && s.producers[p] == Idle
      && p in s.issued
      && |s.dequeued| <= |s.swapped| && Free(s, e)
    case Swap(p) => p in s.producers && s.producers[p].Cleared?
    case Link(p) => p in s.producers && s.producers[p].Swapped?
    case IsEmpty => s.consumer == Outside || s.consumer == Ready
    case Consume => s.consumer != Outside
    case Release(e) => e in s.held
  }

  function DoBegin(s: State, p: Tid, e: Ref): State
    requires Enabled(s, Begin(p, e))
  {
    s.(mem := Write(s.mem, Store(NextAddr(e), REL_NULL)),
       producers := s.producers[p := Cleared(e)],
       issued := s.issued[p := s.issued[p] + [e]])
  }

  function DoSwap(s: State, p: Tid): State
    requires Enabled(s, Swap(p))
  {
    var e := s.producers[p].elt;
    s.(mem := s.mem.(tail := e),
       producers := s.producers[p := Swapped(e, s.mem.tail)],
       swapped := s.swapped + [e],
       swapper := s.swapper + [p])
  }

  function DoLink(s: State, p: Tid): State
    requires Enabled(s, Link(p))
  {
    var Swapped(e, prev) := s.producers[p];
    s.(mem := Write(s.mem, LinkStore(e, prev)), producers := s.producers[p := Idle])
  }

  /** The CAS of dequeue: closes the queue if elt is still its last element. */
  function DoClose(s: State): State
    requires s.consumer.Closing?
  {
    var e := s.consumer.elt;
    if s.mem.tail == e then
      s.(mem := s.mem.(tail := REL_NULL), consumer := Unlinked(e), dequeued := s.dequeued + [e])
    else
      s.(consumer := Spinning(e))
  }

  /** A plain access of the consumer. The element leaves the list when shadow_head moves past it. */
  function DoMove(s: State): State
    requires !s.consumer.Closing?
  {
    var m := ConsumerMove(s.consumer, s.mem);
    Record(s, m).(mem := WriteOpt(s.mem, m.store))
  }

  /** What the logs record of a plain access of the consumer. */
  function Record(s: State, m: Move): State {
    match s.consumer
    case Advancing(e) => s.(consumer := m.to, dequeued := s.dequeued + [e])
    case Done(e) => s.(consumer := m.to, returned := s.returned + [e], held := s.held + {e})
    case _ => s.(consumer := m.to)
  }

  function Do(s: State, a: Action): State
    requires Enabled(s, a)
  {
    match a
    case Begin(p, e) => DoBegin(s, p, e)
    case Swap(p) => DoSwap(s, p)
    case Link(p) => DoLink(s, p)
    case IsEmpty => s.(consumer := ConsumerMove(Outside, s.mem).to)
    case Consume => if s.consumer.Closing? then DoClose(s) else DoMove(s)
    case Release(e) => s.(held := s.held - {e})
  }

  /** `acts` is a run from s: every action is enabled when its turn comes. */
  predicate IsRun(s: State, acts: seq<Action>)
    decreases acts
  {
    acts == [] || (Enabled(s, acts[0]) && IsRun(Do(s, acts[0]), acts[1..]))
  }

  function Exec(s: State, acts: seq<Action>): State
    requires IsRun(s, acts)
    decreases acts
  {
    if acts == [] then s else Exec(Do(s, acts[0]), acts[1..])
  }

  lemma StepThenRun(s: State, a: Action, acts: seq<Action>)
    requires Enabled(s, a) && IsRun(Do(s, a), acts)
    ensures IsRun(s, [a] + acts) && Exec(s, [a] + acts) == Exec(Do(s, a), acts)
  {
    assert ([a] + acts)[1..] == acts;
  }

  lemma {:induction false} ExecAppend(s: State, acts: seq<Action>, a: Action)
    requires IsRun(s, acts) && Enabled(Exec(s, acts), a)
    ensures IsRun(s, acts + [a]) && Exec(s, acts + [a]) == Do(Exec(s, acts), a)
    decreases acts
  {
    if acts == [] {
      assert ([] + [a])[1..] == [];
      assert Exec(s, [] + [a]) == Exec(Do(s, a), []);
    } else {
      assert (acts + [a])[1..] == acts[1..] + [a];
      ExecAppend(Do(s, acts[0]), acts[1..], a);
    }
  }

  /** A run, and one more step. */
  lemma Extend(s0: State, acts: seq<Action>, s: State, a: Action) returns (acts': seq<Action>, s': State)
    requires IsRun(s0, acts) && Exec(s0, acts) == s && Enabled(s, a)
    ensures s' == Do(s, a) && acts' == acts + [a] && IsRun(s0, acts') && Exec(s0, acts') == s'
  {
    ExecAppend(s0, acts, a);
    acts', s' := acts + [a], Do(s, a);
  }
}
