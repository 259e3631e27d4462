/**
 The queue on a machine with store buffers, as on x86: every thread's plain stores go into its own FIFO
 buffer and reach memory one by one, later; a thread reads its own buffered stores first;
 swap and CAS act on memory and wait until the thread's buffer is empty.
 Every run on this machine is a run of the step system of `QueueProtocol`.
 */
module QueueTso {
  import opened Options
  import opened QueueProtocol
  import opened QueueInvariant
  import opened QueueTheorems

  /** An entry of the consumer's buffer: a store to the queue, or the store by which the consumer's
      client makes a returned element available to others. */
  datatype Entry = Put(st: Store) | HandOff(elt: Ref)

  /** `at` is where the producer's program is, which runs ahead of its buffered stores. */
  datatype BufferedProducer = BufferedProducer(at: Producer, buf: seq<Store>)

  datatype TState = TState(
    mem: Mem,
    producers: map<Tid, BufferedProducer>,
    consumer: Consumer,
    cbuf: seq<Entry>,
    held: set<Ref>,
    swapped: seq<Ref>,
    swapper: seq<Tid>,
    dequeued: seq<Ref>,
    returned: seq<Ref>,
    issued: map<Tid, seq<Ref>>
  )

  function WriteEntry(m: Mem, en: Entry): Mem {
    match en
    case Put(st) => Write(m, st)
    case HandOff(_) => m
  }

  /** Memory as a thread with this buffer reads it: the newest buffered store to a word wins. */
  function View(m: Mem, buf: seq<Entry>): Mem
    decreases buf
  {
    if buf == [] then m else View(WriteEntry(m, buf[0]), buf[1..])
  }

  function TQ(t: TState): seq<Ref>
    requires |t.dequeued| <= |t.swapped|
  {
    t.swapped[|t.dequeued|..]
  }

  predicate TFree(t: TState, e: Ref)
    requires |t.dequeued| <= |t.swapped|
  {
    && e in t.mem.next
    && e !in TQ(t)
    && e !in t.held
    && !InHand(t.consumer, e)
    && forall p <- t.producers :: t.producers[p].at != Cleared(e)
  }

  predicate TInit(t: TState) {
    && (forall p <- t.producers :: t.producers[p].buf == [])
    && t.cbuf == []
    && Init(Abs(t))
  }

  /** The threads' program steps, and the memory system's: a store of a producer, or of the consumer, reaches memory. */
  datatype TAction =
    | TBegin(p: Tid, elt: Ref)
    | TSwap(p: Tid)
    | TLink(p: Tid)
    | TIsEmpty
    | TConsume
    | TRelease(elt: Ref)
    | Flush(p: Tid)
    | FlushConsumer

  predicate TEnabled(t: TState, a: TAction) {
    match a
    case TBegin(p, e) =>
      p in t.producers && t.producers[p].at == Idle && p in t.issued && |t.dequeued| <= |t.swapped| && TFree(t, e)
    case TSwap(p) => p in t.producers && t.producers[p].at.Cleared? && t.producers[p].buf == []
    case TLink(p) => p in t.producers && t.producers[p].at.Swapped?
    case TIsEmpty => t.consumer == Outside || t.consumer == Ready
    case TConsume => t.consumer != Outside && (t.consumer.Closing? ==> t.cbuf == [])
    case TRelease(e) => e in t.held && HandOff(e) !in t.cbuf
    case Flush(p) => p in t.producers && t.producers[p].buf != []
    case FlushConsumer => t.cbuf != []
  }

  function TDoBegin(t: TState, p: Tid, e: Ref): TState
    requires TEnabled(t, TBegin(p, e))
  {
    t.(producers := t.producers[p := BufferedProducer(Cleared(e), t.producers[p].buf + [Store(NextAddr(e), REL_NULL)])],
       issued := t.issued[p := t.issued[p] + [e]])
  }

  function TDoSwap(t: TState, p: Tid): TState
    requires TEnabled(t, TSwap(p))
  {
    var e := t.producers[p].at.elt;
    t.(mem := t.mem.(tail := e),
       producers := t.producers[p := BufferedProducer(Swapped(e, t.mem.tail), [])],
       swapped := t.swapped + [e],
       swapper := t.swapper + [p])
  }

  function TDoLink(t: TState, p: Tid): TState
    requires TEnabled(t, TLink(p))
  {
    var Swapped(e, prev) := t.producers[p].at;
    t.(producers := t.producers[p := BufferedProducer(Idle, t.producers[p].buf + [LinkStore(e, prev)])])
  }

  function TDoClose(t: TState): TState
    requires t.consumer.Closing?
  {
    var e := t.consumer.elt;
    if t.mem.tail == e then
      t.(mem := t.mem.(tail := REL_NULL), consumer := Unlinked(e), dequeued := t.dequeued + [e])
    else
      t.(consumer := Spinning(e))
  }

  function PutOpt(st: Option<Store>): seq<Entry> {
    if st.Some? then [Put(st.value)] else []
  }

  function TDoMove(t: TState): TState
    requires !t.consumer.Closing?
  {
    var m := ConsumerMove(t.consumer, View(t.mem, t.cbuf));
    var t1 := match t.consumer
      case Advancing(e) => t.(consumer := m.to, dequeued := t.dequeued + [e])
      case Done(e) => t.(consumer := m.to, returned := t.returned + [e], held := t.held + {e})
      case _ => t.(consumer := m.to);
    t1.(cbuf := t.cbuf + PutOpt(m.store))
  }

  function TDoFlush(t: TState, p: Tid): TState
    requires TEnabled(t, Flush(p))
  {
    var BufferedProducer(at, buf) := t.producers[p];
    t.(mem := Write(t.mem, buf[0]), producers := t.producers[p := BufferedProducer(at, buf[1..])])
  }

  function TDoFlushConsumer(t: TState): TState
    requires t.cbuf != []
  {
    t.(mem := WriteEntry(t.mem, t.cbuf[0]),
       held := t.held - (if t.cbuf[0].HandOff? then {t.cbuf[0].elt} else {}),
       cbuf := t.cbuf[1..])
  }

  function TDo(t: TState, a: TAction): TState
    requires TEnabled(t, a)
  {
    match a
    case TBegin(p, e) => TDoBegin(t, p, e)
    case TSwap(p) => TDoSwap(t, p)
    case TLink(p) => TDoLink(t, p)
    case TIsEmpty => t.(consumer := ConsumerMove(Outside, View(t.mem, t.cbuf)).to)
    case TConsume => if t.consumer.Closing? then TDoClose(t) else TDoMove(t)
    case TRelease(e) => t.(cbuf := t.cbuf + [HandOff(e)])
    case Flush(p) => TDoFlush(t, p)
    case FlushConsumer => TDoFlushConsumer(t)
  }

  predicate TIsRun(t: TState, acts: seq<TAction>)
    decreases acts
  {
    acts == [] || (TEnabled(t, acts[0]) && TIsRun(TDo(t, acts[0]), acts[1..]))
  }

  function TExec(t: TState, acts: seq<TAction>): TState
    requires TIsRun(t, acts)
    decreases acts
  {
    if acts == [] then t else TExec(TDo(t, acts[0]), acts[1..])
  }

  // ---------------------------------------------------------------- the state seen without buffers

  /** Where the producer is as far as memory knows. A link store carries the element, a clear carries null. */
  function Visible(tp: BufferedProducer): Producer {
    if tp.buf == [] then tp.at
    else if tp.buf[0].val == REL_NULL then Idle
    else Swapped(tp.buf[0].val, if tp.buf[0].addr.NextAddr? then tp.buf[0].addr.elt else REL_NULL)
  }

  /** A begun enqueue counts from when its clear has reached memory. */
  function VisibleIssued(tp: BufferedProducer, issued: seq<Ref>): seq<Ref> {
    if tp.buf != [] && tp.buf[|tp.buf| - 1].val == REL_NULL && issued != [] then issued[..|issued| - 1] else issued
  }

  /** The consumer's stores count at once, the producers' when they reach memory. */
  function Abs(t: TState): State {
    State(
      View(t.mem, t.cbuf),
      map p | p in t.producers :: Visible(t.producers[p]),
      t.consumer,
      t.held,
      t.swapped, t.swapper, t.dequeued, t.returned,
      map p | p in t.issued :: if p in t.producers then VisibleIssued(t.producers[p], t.issued[p]) else t.issued[p])
  }

  /** The step of the unbuffered system that a step corresponds to, if any. */
  function Matching(t: TState, a: TAction): Option<Action>
    requires TEnabled(t, a)
  {
    match a
    case TBegin(_, _) => None
    case TSwap(p) => Some(Swap(p))
    case TLink(_) => None
    case TIsEmpty => Some(IsEmpty)
    case TConsume => Some(Consume)
    case TRelease(_) => None
    case Flush(p) =>
      var st := t.producers[p].buf[0];
      if st.val != REL_NULL then Some(Link(p)) else if st.addr.NextAddr? then Some(Begin(p, st.addr.elt)) else None
    case FlushConsumer => if t.cbuf[0].HandOff? then Some(Release(t.cbuf[0].elt)) else None
  }

  // ---------------------------------------------------------------- the invariant of the buffers

  predicate IsLink(st: Store) {
    && st.val != REL_NULL
    && match st.addr
       case HeadAddr => true
       case NextAddr(prev) => prev != REL_NULL
       case ShadowAddr => false
  }

  predicate BufferOk(tp: BufferedProducer) {
    match tp.at
    case Idle => tp.buf == [] || (|tp.buf| == 1 && IsLink(tp.buf[0]))
    case Cleared(e) =>
      var clear := Store(NextAddr(e), REL_NULL);
      tp.buf == [] || tp.buf == [clear] || (|tp.buf| == 2 && IsLink(tp.buf[0]) && tp.buf[1] == clear)
    case Swapped(_, _) => tp.buf == []
  }

  /** A producer's program owns the element it has begun with, whether or not memory knows yet. */
  ghost predicate ProgramOwns(t: TState)
    requires |t.dequeued| <= |t.swapped|
  {
    && (forall p <- t.producers :: t.producers[p].at.Cleared? ==>
          var e := t.producers[p].at.elt;
          && e in t.mem.next && e !in TQ(t) && e !in t.held && !InHand(t.consumer, e)
          && p in t.issued && t.issued[p] != [] && t.issued[p][|t.issued[p]| - 1] == e)
    && (forall p, p' :: p in t.producers && p' in t.producers && p != p' && t.producers[p].at.Cleared? ==>
          t.producers[p].at != t.producers[p'].at)
  }

  /** What an entry of the consumer's buffer can be: the clear of an element nobody else can have;
      the reset of head, while tail is not null and nobody is about to store head. */
  ghost predicate EntryOk(t: TState, en: Entry) {
    match en
    case HandOff(e) => e in t.held
    case Put(Store(NextAddr(e), v)) => v == REL_NULL && e in t.mem.next && (e in t.held || t.consumer == Done(e))
    case Put(Store(HeadAddr, v)) => v == REL_NULL && t.mem.tail != REL_NULL && NoHeadWriter(t)
    case Put(Store(ShadowAddr, v)) => true
  }

  ghost predicate NoHeadWriter(t: TState) {
    forall p <- t.producers :: Visible(t.producers[p]).Swapped? ==> Visible(t.producers[p]).prev != REL_NULL
  }

  /** After the hand-off of e, nothing that concerns e is in the buffer. */
  ghost predicate HandOffLast(buf: seq<Entry>) {
    forall i, j :: 0 <= i < j < |buf| && buf[i].HandOff? ==> !Concerns(buf[j], buf[i].elt)
  }

  predicate Concerns(en: Entry, e: Ref) {
    en == HandOff(e) || (en.Put? && en.st.addr == NextAddr(e))
  }

  predicate BuffersOk(t: TState) {
    && t.issued.Keys == t.producers.Keys
    && forall p <- t.producers :: BufferOk(t.producers[p])
  }

  ghost predicate TInv(t: TState) {
    && Inv(Abs(t))
    && BuffersOk(t)
    && ProgramOwns(t)
    && (forall i :: 0 <= i < |t.cbuf| ==> EntryOk(t, t.cbuf[i]))
    && HandOffLast(t.cbuf)
  }

  // ---------------------------------------------------------------- buffers

  lemma {:induction false} ViewAppend(m: Mem, buf: seq<Entry>, en: Entry)
    ensures View(m, buf + [en]) == WriteEntry(View(m, buf), en)
    decreases buf
  {
    if buf == [] {
      assert (buf + [en])[1..] == [];
    } else {
      assert (buf + [en])[1..] == buf[1..] + [en];
      ViewAppend(WriteEntry(m, buf[0]), buf[1..], en);
    }
  }

  predicate SameWord(en: Entry, st: Store) {
    en.Put? && en.st.addr == st.addr
  }

  /** A store by another thread to a word that the buffer does not write. */
  lemma {:induction false} ViewCommutes(m: Mem, buf: seq<Entry>, st: Store)
    requires forall i :: 0 <= i < |buf| ==> !SameWord(buf[i], st)
    ensures View(Write(m, st), buf) == Write(View(m, buf), st)
    decreases buf
  {
    if buf != [] {
      assert !SameWord(buf[0], st);
      WritesCommute(m, buf[0], st);
      ViewCommutes(WriteEntry(m, buf[0]), buf[1..], st);
    }
  }

  lemma WritesCommute(m: Mem, en: Entry, st: Store)
    requires !SameWord(en, st)
    ensures WriteEntry(Write(m, st), en) == Write(WriteEntry(m, en), st)
  {
    if en.Put? && en.st.addr.NextAddr? && st.addr.NextAddr? {
      var x, y := en.st.addr.elt, st.addr.elt;
      assert m.next[y := st.val][x := en.st.val] == m.next[x := en.st.val][y := st.val];
    }
  }

  /** The buffer never holds a store to tail, and adds no element. */
  lemma {:induction false} ViewTail(m: Mem, buf: seq<Entry>, v: Ref)
    ensures View(m, buf).tail == m.tail
    ensures View(m.(tail := v), buf) == View(m, buf).(tail := v)
    decreases buf
  {
    if buf != [] {
      assert WriteEntry(m.(tail := v), buf[0]) == WriteEntry(m, buf[0]).(tail := v);
      ViewTail(WriteEntry(m, buf[0]), buf[1..], v);
    }
  }

  lemma {:induction false} ViewKeys(m: Mem, buf: seq<Entry>)
    requires forall i :: 0 <= i < |buf| && buf[i].Put? && buf[i].st.addr.NextAddr? ==> buf[i].st.addr.elt in m.next
    ensures View(m, buf).next.Keys == m.next.Keys
    decreases buf
  {
    if buf != [] {
      var m1 := WriteEntry(m, buf[0]);
      assert m1.next.Keys == m.next.Keys;
      forall i | 0 <= i < |buf[1..]| && buf[1..][i].Put? && buf[1..][i].st.addr.NextAddr?
        ensures buf[1..][i].st.addr.elt in m1.next
      {
        assert buf[1..][i] == buf[i + 1];
      }
      ViewKeys(m1, buf[1..]);
    }
  }
}
