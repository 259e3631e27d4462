/**
 What the integer primitives mean, following the lock-based reference, and the machine
 on which each of them is one indivisible step.
 */
module AtomicSpec {
  import opened Options

  const TWO_31: int := 0x8000_0000
  const TWO_32: int := 0x1_0000_0000

  /** A 32-bit signed word. */
  type Int32 = x: int | -TWO_31 <= x < TWO_31

  /** Silent wrap-around to 32 bits. */
  function Wrap(x: int): Int32 {
    (x + TWO_31) % TWO_32 - TWO_31
  }

  datatype Op =
    | Load
    | Store(val: Int32)
    | Add(val: Int32)
    | Incr
    | Decr
    | DecrAndTest
    | FetchAdd(val: Int32)
    | FetchIncr
    | FetchDecr
    | Cas(expected: Int32, desired: Int32)
    | Swap(val: Int32)

  /** The word after the operation. */
  function After(op: Op, v: Int32): Int32 {
    match op
    case Load => v
    case Store(x) => x
    case Add(x) => Wrap(v + x)
    case Incr => Wrap(v + 1)
    case Decr => Wrap(v - 1)
    case DecrAndTest => Wrap(v - 1)
    case FetchAdd(x) => Wrap(v + x)
    case FetchIncr => Wrap(v + 1)
    case FetchDecr => Wrap(v - 1)
    case Cas(o, n) => if v == o then n else v
    case Swap(x) => x
  }

  /** What the operation returns; 0 stands for no result. */
  function Result(op: Op, v: Int32): Int32 {
    match op
    case Load => v
    case Store(_) => 0
    case Add(_) => 0
    case Incr => 0
    case Decr => 0
    case DecrAndTest => if Wrap(v - 1) == 0 then 1 else 0
    case FetchAdd(_) => v
    case FetchIncr => v
    case FetchDecr => v
    case Cas(_, _) => v
    case Swap(_) => v
  }

  // ---------------------------------------------------------------- histories

  type Tid = nat

  /** An operation that has taken effect, and what it returned. */
  datatype Effect = Effect(t: Tid, op: Op, ret: Int32)

  /** The word after the operations of a history, one after the other. */
  function Replay(v: Int32, log: seq<Effect>): Int32 {
    if log == [] then v else After(log[|log| - 1].op, Replay(v, log[..|log| - 1]))
  }

  /** Every operation of the history returned what the reference returns at its place. */
  ghost predicate Legal(v: Int32, log: seq<Effect>)
    decreases |log|
  {
    log != [] ==>
      var before, last := log[..|log| - 1], log[|log| - 1];
      Legal(v, before) && last.ret == Result(last.op, Replay(v, before))
  }

  lemma {:induction false} LegalAt(v: Int32, log: seq<Effect>, i: nat)
    requires Legal(v, log) && i < |log|
    ensures log[i].ret == Result(log[i].op, Replay(v, log[..i]))
    decreases |log|
  {
    if i < |log| - 1 {
      assert log[..|log| - 1][..i] == log[..i];
      LegalAt(v, log[..|log| - 1], i);
    }
  }

  /** A thread's own operations in the history, with their results. */
  function Own(log: seq<Effect>, t: Tid): seq<(Op, Int32)> {
    if log == [] then []
    else
      var last := log[|log| - 1];
      Own(log[..|log| - 1], t) + if last.t == t then [(last.op, last.ret)] else []
  }

  function Ops(calls: seq<(Op, Int32)>): seq<Op> {
    seq(|calls|, i requires 0 <= i < |calls| => calls[i].0)
  }

  lemma LegalAppend(v: Int32, log: seq<Effect>, e: Effect)
    requires Legal(v, log) && e.ret == Result(e.op, Replay(v, log))
    ensures Legal(v, log + [e]) && Replay(v, log + [e]) == After(e.op, Replay(v, log))
  {
    assert (log + [e])[..|log|] == log;
  }

  lemma OwnAppend(log: seq<Effect>, e: Effect, t: Tid)
    ensures Own(log + [e], t) == Own(log, t) + if e.t == t then [(e.op, e.ret)] else []
  {
    assert (log + [e])[..|log|] == log;
  }

  // ---------------------------------------------------------------- the atomic machine

  datatype Call = NoCall | Pending(op: Op) | Finished(op: Op, ret: Int32)

  /** `invoked` and `returned` are what each thread's program has called and got back. */
  datatype Atomic = Atomic(
    v: Int32,
    calls: map<Tid, Call>,
    log: seq<Effect>,
    invoked: map<Tid, seq<Op>>,
    returned: map<Tid, seq<(Op, Int32)>>
  )

  datatype Event = Invoke(t: Tid, op: Op) | Take(t: Tid) | Return(t: Tid)

  predicate AEnabled(a: Atomic, ev: Event) {
    && ev.t in a.calls && ev.t in a.invoked && ev.t in a.returned
    && match ev
       case Invoke(t, _) => a.calls[t].NoCall?
       case Take(t) => a.calls[t].Pending?
       case Return(t) => a.calls[t].Finished?
  }

  function ADo(a: Atomic, ev: Event): Atomic
    requires AEnabled(a, ev)
  {
    match ev
    case Invoke(t, op) =>
      a.(calls := a.calls[t := Pending(op)], invoked := a.invoked[t := a.invoked[t] + [op]])
    case Take(t) =>
      var op := a.calls[t].op;
      a.(v := After(op, a.v),
         calls := a.calls[t := Finished(op, Result(op, a.v))],
         log := a.log + [Effect(t, op, Result(op, a.v))])
    case Return(t) =>
      var Finished(op, ret) := a.calls[t];
      a.(calls := a.calls[t := NoCall], returned := a.returned[t := a.returned[t] + [(op, ret)]])
  }

  predicate AIsRun(a: Atomic, evs: seq<Event>)
    decreases evs
  {
    evs == [] || (AEnabled(a, evs[0]) && AIsRun(ADo(a, evs[0]), evs[1..]))
  }

  function AExec(a: Atomic, evs: seq<Event>): Atomic
    requires AIsRun(a, evs)
    decreases evs
  {
    if evs == [] then a else AExec(ADo(a, evs[0]), evs[1..])
  }

  /** One event, or nothing that the atomic machine can see. */
  predicate AStep(a: Atomic, m: Option<Event>, a': Atomic) {
    if m.None? then a' == a else AEnabled(a, m.value) && a' == ADo(a, m.value)
  }

  function Prepend(m: Option<Event>, evs: seq<Event>): seq<Event> {
    if m.None? then evs else [m.value] + evs
  }

  lemma PrependRun(a: Atomic, m: Option<Event>, a': Atomic, evs: seq<Event>)
    requires AStep(a, m, a') && AIsRun(a', evs)
    ensures AIsRun(a, Prepend(m, evs)) && AExec(a, Prepend(m, evs)) == AExec(a', evs)
  {
    assert m.Some? ==> ([m.value] + evs)[1..] == evs;
  }

  predicate AInit(a: Atomic) {
    && a.log == []
    && a.calls.Keys == a.invoked.Keys == a.returned.Keys
    && forall t <- a.calls :: a.calls[t] == NoCall && a.invoked[t] == [] && a.returned[t] == []
  }

  function Unreturned(c: Call): seq<(Op, Int32)> {
    if c.Finished? then [(c.op, c.ret)] else []
  }

  function Untaken(c: Call): seq<Op> {
    if c.Pending? then [c.op] else []
  }

  /** The history is one of the reference, and holds every call of every thread exactly once, in the thread's order:
      those it got a result from, the one about to return, and not the one still waiting; and nothing else. */
  ghost predicate Linearized(v0: Int32, a: Atomic) {
    && a.calls.Keys == a.invoked.Keys == a.returned.Keys
    && Legal(v0, a.log) && a.v == Replay(v0, a.log)
    && (forall i :: 0 <= i < |a.log| ==> a.log[i].t in a.calls)
    && forall t <- a.calls :: Accounted(a, t)
  }

  ghost predicate Accounted(a: Atomic, t: Tid) {
    && t in a.calls && t in a.invoked && t in a.returned
    && Own(a.log, t) == a.returned[t] + Unreturned(a.calls[t])
    && a.invoked[t] == Ops(Own(a.log, t)) + Untaken(a.calls[t])
  }

  lemma OpsAppend(calls: seq<(Op, Int32)>, c: (Op, Int32))
    ensures Ops(calls + [c]) == Ops(calls) + [c.0]
  {
  }

  lemma AccountedTake(a: Atomic, u: Tid, t: Tid)
    requires AEnabled(a, Take(u)) && Accounted(a, t)
    ensures Accounted(ADo(a, Take(u)), t)
  {
    var e := Effect(u, a.calls[u].op, Result(a.calls[u].op, a.v));
    OwnAppend(a.log, e, t);
    OpsAppend(Own(a.log, t), (e.op, e.ret));
  }

  lemma AccountedStep(a: Atomic, ev: Event, t: Tid)
    requires AEnabled(a, ev) && Accounted(a, t)
    ensures Accounted(ADo(a, ev), t)
  {
    match ev
    case Invoke(u, op) =>
      assert u == t ==> a.calls[t] == NoCall;
    case Take(u) => AccountedTake(a, u, t);
    case Return(u) =>
      assert u == t ==> a.calls[t].Finished?;
  }

  lemma LegalStep(v0: Int32, a: Atomic, ev: Event)
    requires Legal(v0, a.log) && a.v == Replay(v0, a.log) && AEnabled(a, ev)
    ensures Legal(v0, ADo(a, ev).log) && ADo(a, ev).v == Replay(v0, ADo(a, ev).log)
  {
    if ev.Take? {
      LegalAppend(v0, a.log, Effect(ev.t, a.calls[ev.t].op, Result(a.calls[ev.t].op, a.v)));
    }
  }

  lemma KeysKept(a: Atomic, ev: Event)
    requires AEnabled(a, ev)
    ensures var a' := ADo(a, ev);
            a'.calls.Keys == a.calls.Keys && a'.invoked.Keys == a.invoked.Keys && a'.returned.Keys == a.returned.Keys
    ensures var a' := ADo(a, ev);
            a.log <= a'.log && forall i :: |a.log| <= i < |a'.log| ==> a'.log[i].t in a.calls
  {
  }

  lemma LinearizedStep(v0: Int32, a: Atomic, ev: Event)
    requires Linearized(v0, a) && AEnabled(a, ev)
    ensures Linearized(v0, ADo(a, ev)) && a.log <= ADo(a, ev).log
  {
    LegalStep(v0, a, ev);
    KeysKept(a, ev);
    var a' := ADo(a, ev);
    forall t <- a'.calls
      ensures Accounted(a', t)
    {
      AccountedStep(a, ev, t);
    }
  }

  /** Every state that the atomic machine reaches has such a history, and it only grows. */
  lemma {:induction false} LinearizedRun(v0: Int32, a: Atomic, evs: seq<Event>)
    requires Linearized(v0, a) && AIsRun(a, evs)
    ensures Linearized(v0, AExec(a, evs)) && a.log <= AExec(a, evs).log
    decreases evs
  {
    if evs != [] {
      LinearizedStep(v0, a, evs[0]);
      LinearizedRun(v0, ADo(a, evs[0]), evs[1..]);
    }
  }

  lemma InitLinearized(a: Atomic)
    requires AInit(a)
    ensures Linearized(a.v, a)
  {
  }

  // ---------------------------------------------------------------- real time

  /** Where the k-th call of t stands in the history. */
  function Place(log: seq<Effect>, t: Tid, k: nat): (i: nat)
    requires k < |Own(log, t)|
    ensures i < |log| && log[i].t == t && (log[i].op, log[i].ret) == Own(log, t)[k]
    ensures |Own(log[..i], t)| == k
  {
    var n := |log| - 1;
    if k < |Own(log[..n], t)| then
      assert forall i :: 0 <= i <= n ==> log[..n][..i] == log[..i];
      Place(log[..n], t, k)
    else
      n
  }

  lemma {:induction false} OwnGrows(log: seq<Effect>, n: nat, t: Tid)
    requires n <= |log|
    ensures Own(log[..n], t) <= Own(log, t)
    decreases log
  {
    if n == |log| {
      assert log[..n] == log;
    } else {
      assert log[..|log| - 1][..n] == log[..n];
      OwnGrows(log[..|log| - 1], n, t);
    }
  }

  /** The calls that have come before n in the history are the first ones of their threads. */
  lemma PlaceBefore(log: seq<Effect>, n: nat, t: Tid, k: nat)
    requires n <= |log| && k < |Own(log, t)|
    ensures Place(log, t, k) < n <==> k < |Own(log[..n], t)|
  {
    var i := Place(log, t, k);
    if i < n {
      assert log[..i + 1][..i] == log[..i] && log[..n][..i + 1] == log[..i + 1];
      OwnGrows(log[..n], i + 1, t);
    } else {
      assert log[..i][..n] == log[..n];
      OwnGrows(log[..i], n, t);
    }
  }

  /** The k-th call of t had returned when the l-th call of u was not invoked yet. */
  predicate Precedes(early: Atomic, t: Tid, k: nat, u: Tid, l: nat) {
    && t in early.returned && k < |early.returned[t]|
    && u in early.invoked && |early.invoked[u]| <= l
  }

  /** The history keeps the order in time, across threads: what had returned in the earlier state stands
      before everything that was invoked after it. */
  ghost predicate RealTime(early: Atomic, late: Atomic) {
    && early.log <= late.log
    && forall t, k: nat, u, l: nat | Precedes(early, t, k, u, l) && l < |Own(late.log, u)| ::
         k < |Own(late.log, t)| && Place(late.log, t, k) < Place(late.log, u, l)
  }

  lemma RealTimeOrder(v0: Int32, early: Atomic, late: Atomic)
    requires Linearized(v0, early) && Linearized(v0, late) && early.log <= late.log
    ensures RealTime(early, late)
  {
    var n := |early.log|;
    assert late.log[..n] == early.log;
    forall t, k: nat, u, l: nat | Precedes(early, t, k, u, l) && l < |Own(late.log, u)|
      ensures k < |Own(late.log, t)| && Place(late.log, t, k) < Place(late.log, u, l)
    {
      assert Accounted(early, t) && Accounted(early, u);
      OwnGrows(late.log, n, t);
      PlaceBefore(late.log, n, t, k);
      PlaceBefore(late.log, n, u, l);
    }
  }
}
