/**
 The queue without the write barrier of enqueue: the store that clears elt.next may land at any time
 after it was issued, also after the swap. Then the consumer can get stuck for ever.
 */
module QueueLateClear {
  import opened QueueProtocol

  /** `late`: the elements whose clear the producers have issued and that has not landed yet. */
  datatype LState = LState(s: State, late: map<Tid, Ref>)

  datatype LAction = Step(a: Action) | Land(p: Tid)

  predicate LEnabled(l: LState, la: LAction) {
    match la
    case Step(a) => Enabled(l.s, a) && (a.Begin? ==> a.p !in l.late)
    case Land(p) => p in l.late
  }

  /** Beginning an enqueue only issues the clear; every other step is as in the queue. */
  function LDo(l: LState, la: LAction): LState
    requires LEnabled(l, la)
  {
    match la
    case Step(Begin(p, e)) =>
      LState(l.s.(producers := l.s.producers[p := Cleared(e)], issued := l.s.issued[p := l.s.issued[p] + [e]]),
             l.late[p := e])
    case Step(a) => LState(Do(l.s, a), l.late)
    case Land(p) => LState(l.s.(mem := Write(l.s.mem, Store(NextAddr(l.late[p]), REL_NULL))), l.late - {p})
  }

  predicate LIsRun(l: LState, acts: seq<LAction>)
    decreases acts
  {
    acts == [] || (LEnabled(l, acts[0]) && LIsRun(LDo(l, acts[0]), acts[1..]))
  }

  function LExec(l: LState, acts: seq<LAction>): LState
    requires LIsRun(l, acts)
    decreases acts
  {
    if acts == [] then l else LExec(LDo(l, acts[0]), acts[1..])
  }

  /** The consumer spins on an element that no producer will ever link to a successor. */
  ghost predicate Stuck(s: State) {
    && s.consumer.Spinning?
    && |s.dequeued| <= |s.swapped|
    && s.consumer.elt != REL_NULL
    && s.consumer.elt in Q(s)
    && Next(s.mem, s.consumer.elt) == REL_NULL
    && s.mem.tail != s.consumer.elt
    && (forall p <- s.producers :: match s.producers[p]
          case Idle => true
          case Cleared(e) => e != s.consumer.elt
          case Swapped(_, prev) => prev != s.consumer.elt)
  }

  lemma StuckStep(l: LState, la: LAction)
    requires Stuck(l.s) && LEnabled(l, la)
    ensures Stuck(LDo(l, la).s) && LDo(l, la).s.consumer == l.s.consumer && LDo(l, la).s.returned == l.s.returned
  {
    if la.Step? && !la.a.Begin? {
      StuckByStep(l.s, la.a);
    } else {
      assert Q(LDo(l, la).s) == Q(l.s);
    }
  }

  /** The steps that are as in the queue. */
  lemma StuckByStep(s: State, a: Action)
    requires Stuck(s) && Enabled(s, a) && !a.Begin?
    ensures Stuck(Do(s, a)) && Do(s, a).consumer == s.consumer && Do(s, a).returned == s.returned
  {
    if a.Swap? {
      assert Q(Do(s, a)) == Q(s) + [s.producers[a.p].elt];
    } else {
      assert Q(Do(s, a)) == Q(s);
    }
  }

  /** Once stuck, stuck in every run of all threads: the dequeue never ends and nothing is ever returned again. */
  lemma {:induction false} StuckForEver(l: LState, acts: seq<LAction>)
    requires Stuck(l.s) && LIsRun(l, acts)
    ensures Stuck(LExec(l, acts).s)
    ensures LExec(l, acts).s.consumer == l.s.consumer && LExec(l, acts).s.returned == l.s.returned
    decreases acts
  {
    if acts != [] {
      StuckStep(l, acts[0]);
      StuckForEver(LDo(l, acts[0]), acts[1..]);
    }
  }

  lemma {:induction false} LExecAppend(l: LState, acts: seq<LAction>, more: seq<LAction>)
    requires LIsRun(l, acts) && LIsRun(LExec(l, acts), more)
    ensures LIsRun(l, acts + more) && LExec(l, acts + more) == LExec(LExec(l, acts), more)
    decreases acts
  {
    if acts == [] {
      assert acts + more == more;
    } else {
      assert (acts + more)[1..] == acts[1..] + more;
      LExecAppend(LDo(l, acts[0]), acts[1..], more);
    }
  }

  /** A run, and one more step. */
  lemma Extend(l0: LState, acts: seq<LAction>, l: LState, la: LAction) returns (acts': seq<LAction>, l': LState)
    requires LIsRun(l0, acts) && LExec(l0, acts) == l && LEnabled(l, la)
    ensures l' == LDo(l, la) && LIsRun(l0, acts') && LExec(l0, acts') == l'
  {
    l' := LDo(l, la);
    acts' := acts + [la];
    assert [la][1..] == [];
    assert LExec(l, [la]) == LExec(l', []);
    LExecAppend(l0, acts, [la]);
  }

  /** Element 1 is in the queue, its clear still on its way. */
  const ONE_IN: State := State(
    Mem(1, 1, REL_NULL, map[1 := REL_NULL, 2 := REL_NULL]),
    map[1 := Idle, 2 := Idle], Outside, {}, [1], [1], [], [], map[1 := [1], 2 := []])

  /** Element 2 has been linked behind it. */
  const BOTH_IN: State := State(
    Mem(1, 2, REL_NULL, map[1 := 2, 2 := REL_NULL]),
    map[1 := Idle, 2 := Idle], Outside, {}, [1, 2], [1, 2], [], [], map[1 := [1], 2 := [2]])

  /** The clear of element 1 has landed on the link, and the consumer's is_empty has returned 0. */
  const CUT: State := BOTH_IN.(
    mem := Mem(REL_NULL, 2, 1, map[1 := REL_NULL, 2 := REL_NULL]), consumer := Ready)

  lemma EnqueueOne() returns (acts: seq<LAction>)
    ensures LIsRun(LState(START, map[]), acts) && LExec(LState(START, map[]), acts) == LState(ONE_IN, map[1 := 1])
  {
    var l0 := LState(START, map[]);
    var l;
    acts := SwapOne();
    acts, l := Extend(l0, acts, LState(ONE_SWAPPED, map[1 := 1]), Step(Link(1)));
    assert l.s.producers == ONE_IN.producers;
  }

  /** Element 1 has been swapped in, its clear still on its way. */
  const ONE_SWAPPED: State := ONE_IN.(
    mem := ONE_IN.mem.(head := REL_NULL), producers := map[1 := Swapped(1, REL_NULL), 2 := Idle])

  lemma SwapOne() returns (acts: seq<LAction>)
    ensures LIsRun(LState(START, map[]), acts)
    ensures LExec(LState(START, map[]), acts) == LState(ONE_SWAPPED, map[1 := 1])
  {
    var l0 := LState(START, map[]);
    var l := l0;
    assert Q(l.s) == [];
    acts, l := Extend(l0, [], l, Step(Begin(1, 1)));
    assert l.s.issued[1] == [1] && l.s.issued == ONE_SWAPPED.issued && l.late == map[1 := 1];
    acts, l := Extend(l0, acts, l, Step(Swap(1)));
    assert l.s.producers == ONE_SWAPPED.producers;
  }

  /** Element 2 has been swapped in behind element 1. */
  const TWO_SWAPPED: State := ONE_IN.(
    mem := ONE_IN.mem.(tail := 2), producers := map[1 := Idle, 2 := Swapped(2, 1)],
    swapped := [1, 2], swapper := [1, 2], issued := map[1 := [1], 2 := [2]])

  lemma SwapTwo() returns (acts: seq<LAction>)
    ensures LIsRun(LState(ONE_IN, map[1 := 1]), acts)
    ensures LExec(LState(ONE_IN, map[1 := 1]), acts) == LState(TWO_SWAPPED, map[1 := 1, 2 := 2])
  {
    var l0 := LState(ONE_IN, map[1 := 1]);
    var l := l0;
    acts := [];
    assert Q(l.s) == [1];
    acts, l := Extend(l0, acts, l, Step(Begin(2, 2)));
    assert l.s.issued[2] == [2] && l.s.issued == TWO_SWAPPED.issued && l.late == map[1 := 1, 2 := 2];
    acts, l := Extend(l0, acts, l, Step(Swap(2)));
    assert l.s.producers == TWO_SWAPPED.producers && l.s.swapped == [1, 2] && l.s.swapper == [1, 2];
  }

  lemma LinkTwo() returns (acts: seq<LAction>)
    ensures LIsRun(LState(TWO_SWAPPED, map[1 := 1, 2 := 2]), acts)
    ensures LExec(LState(TWO_SWAPPED, map[1 := 1, 2 := 2]), acts) == LState(BOTH_IN, map[1 := 1, 2 := 2])
  {
    var l := LState(TWO_SWAPPED, map[1 := 1, 2 := 2]);
    acts, l := Extend(l, [], l, Step(Link(2)));
    assert l.s.mem == BOTH_IN.mem && l.s.producers == BOTH_IN.producers;
  }

  /** The clear of element 1 has landed on the link. */
  const LANDED: State := BOTH_IN.(mem := Mem(1, 2, REL_NULL, map[1 := REL_NULL, 2 := REL_NULL]))

  lemma LandOne() returns (acts: seq<LAction>)
    ensures LIsRun(LState(BOTH_IN, map[1 := 1, 2 := 2]), acts)
    ensures LExec(LState(BOTH_IN, map[1 := 1, 2 := 2]), acts) == LState(LANDED, map[2 := 2])
  {
    var l := LState(BOTH_IN, map[1 := 1, 2 := 2]);
    acts, l := Extend(l, [], l, Land(1));
    assert l.s.mem.next == LANDED.mem.next && l.late == map[2 := 2];
  }

  lemma TestEmpty() returns (acts: seq<LAction>)
    ensures LIsRun(LState(LANDED, map[2 := 2]), acts)
    ensures LExec(LState(LANDED, map[2 := 2]), acts) == LState(CUT, map[2 := 2])
  {
    acts := TestHeads();
    var more := TransferHead();
    LExecAppend(LState(LANDED, map[2 := 2]), acts, more);
    acts := acts + more;
  }

  lemma TestHeads() returns (acts: seq<LAction>)
    ensures LIsRun(LState(LANDED, map[2 := 2]), acts)
    ensures LExec(LState(LANDED, map[2 := 2]), acts) == LState(LANDED.(consumer := CopyHead), map[2 := 2])
  {
    var l0 := LState(LANDED, map[2 := 2]);
    var l;
    acts, l := Extend(l0, [], l0, Step(IsEmpty));
    acts, l := Extend(l0, acts, l, Step(Consume));
  }

  lemma TransferHead() returns (acts: seq<LAction>)
    ensures LIsRun(LState(LANDED.(consumer := CopyHead), map[2 := 2]), acts)
    ensures LExec(LState(LANDED.(consumer := CopyHead), map[2 := 2]), acts) == LState(CUT, map[2 := 2])
  {
    var l0 := LState(LANDED.(consumer := CopyHead), map[2 := 2]);
    var l;
    acts, l := Extend(l0, [], l0, Step(Consume));
    acts, l := Extend(l0, acts, l, Step(Consume));
  }

  lemma DequeueOne() returns (acts: seq<LAction>)
    ensures LIsRun(LState(CUT, map[2 := 2]), acts)
    ensures Stuck(LExec(LState(CUT, map[2 := 2]), acts).s)
  {
    acts := SeeNull();
    var more := LoseCas();
    LExecAppend(LState(CUT, map[2 := 2]), acts, more);
    acts := acts + more;
  }

  lemma SeeNull() returns (acts: seq<LAction>)
    ensures LIsRun(LState(CUT, map[2 := 2]), acts)
    ensures LExec(LState(CUT, map[2 := 2]), acts) == LState(CUT.(consumer := NullNext(1)), map[2 := 2])
  {
    var l0 := LState(CUT, map[2 := 2]);
    var l;
    acts, l := Extend(l0, [], l0, Step(Consume));
    acts, l := Extend(l0, acts, l, Step(Consume));
  }

  lemma LoseCas() returns (acts: seq<LAction>)
    ensures LIsRun(LState(CUT.(consumer := NullNext(1)), map[2 := 2]), acts)
    ensures Stuck(LExec(LState(CUT.(consumer := NullNext(1)), map[2 := 2]), acts).s)
  {
    var l0 := LState(CUT.(consumer := NullNext(1)), map[2 := 2]);
    var l;
    acts, l := Extend(l0, [], l0, Step(Consume));
    acts, l := Extend(l0, acts, l, Step(Consume));
    assert Q(l.s) == [1, 2] && l.s.consumer == Spinning(1);
  }

  /** The whole of both enqueues, with the clear of element 1 landing last. */
  lemma EnqueueBoth() returns (acts: seq<LAction>)
    ensures LIsRun(LState(START, map[]), acts) && LExec(LState(START, map[]), acts) == LState(LANDED, map[2 := 2])
  {
    var l0 := LState(START, map[]);
    acts := EnqueueOne();
    var more := SwapTwo();
    LExecAppend(l0, acts, more);
    acts := acts + more;
    more := LinkTwo();
    LExecAppend(l0, acts, more);
    acts := acts + more;
    more := LandOne();
    LExecAppend(l0, acts, more);
    acts := acts + more;
  }

  lemma StuckFromLanded() returns (acts: seq<LAction>)
    ensures LIsRun(LState(LANDED, map[2 := 2]), acts) && Stuck(LExec(LState(LANDED, map[2 := 2]), acts).s)
  {
    acts := TestEmpty();
    var more := DequeueOne();
    LExecAppend(LState(LANDED, map[2 := 2]), acts, more);
    acts := acts + more;
  }

  /** Without the barrier the stuck state is reachable: the late clear lands on the link from 1 to 2. */
  lemma StuckReachable() returns (acts: seq<LAction>)
    ensures Init(START) && LIsRun(LState(START, map[]), acts) && Stuck(LExec(LState(START, map[]), acts).s)
  {
    StartIsInit();
    acts := EnqueueBoth();
    var more := StuckFromLanded();
    LExecAppend(LState(START, map[]), acts, more);
    acts := acts + more;
  }
}
