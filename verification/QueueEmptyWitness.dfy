/**
 is_empty is not linearizable with the tail swap as the moment of the enqueue: it can return 1 although an enqueue
 that was over before is_empty began has its element in the queue, because an earlier producer has stalled.
 */
module QueueEmptyWitness {
  import opened QueueProtocol

  /** Producer 1 has swapped its element in and stalls. */
  const STALLED: State := State(
    Mem(REL_NULL, 1, REL_NULL, map[1 := REL_NULL, 2 := REL_NULL]),
    map[1 := Swapped(1, REL_NULL), 2 := Idle], Outside, {}, [1], [1], [], [], map[1 := [1], 2 := []])

  lemma FirstStalls() returns (acts: seq<Action>)
    ensures IsRun(START, acts) && Exec(START, acts) == STALLED
  {
    var s := START;
    acts := [];
    assert Q(s) == [];
    acts, s := Extend(START, acts, s, Begin(1, 1));
    assert s.issued[1] == [1] && s.issued == STALLED.issued;
    acts, s := Extend(START, acts, s, Swap(1));
    assert s.producers == STALLED.producers && s.swapped == [1] && s.swapper == [1];
  }

  /** Producer 2's enqueue of element 2 is over and the element has not been taken out. */
  predicate SecondIsIn(s: State) {
    && 2 in s.producers && s.producers[2] == Idle
    && |s.dequeued| <= |s.swapped| && 2 in Q(s)
  }

  /** The second producer's whole enqueue, behind the stalled one. */
  lemma SecondEnqueues(acts: seq<Action>) returns (acts': seq<Action>, s: State)
    requires IsRun(START, acts) && Exec(START, acts) == STALLED
    ensures IsRun(START, acts') && Exec(START, acts') == s && SecondIsIn(s)
    ensures s.consumer == Outside && s.mem.head == s.mem.shadow == REL_NULL
  {
    acts', s := acts, STALLED;
    assert Q(s) == [1];
    acts', s := Extend(START, acts', s, Begin(2, 2));
    acts', s := Extend(START, acts', s, Swap(2));
    assert s.producers[2] == Swapped(2, 1) && s.swapped == [1, 2];
    acts', s := Extend(START, acts', s, Link(2));
    assert Q(s) == [1, 2];
  }

  /** With head and shadow_head null the call takes two accesses and changes nothing but where the consumer is. */
  lemma ReturnsOne(s: State)
    requires SecondIsIn(s) && s.consumer == Outside && s.mem.head == s.mem.shadow == REL_NULL
    ensures Enabled(s, IsEmpty)
    ensures var s1 := Do(s, IsEmpty);
            Enabled(s1, Consume) && SecondIsIn(Do(s1, Consume)) && Do(s1, Consume).consumer == Outside
  {
    var s1 := Do(s, IsEmpty);
    assert s1 == s.(consumer := TestHead);
    assert Do(s1, Consume) == s;
  }

  lemma BothEnqueue() returns (acts: seq<Action>)
    ensures IsRun(START, acts) && SecondIsIn(Exec(START, acts)) && Exec(START, acts).consumer == Outside
    ensures Exec(START, acts).mem.head == Exec(START, acts).mem.shadow == REL_NULL
  {
    acts := FirstStalls();
    var s;
    acts, s := SecondEnqueues(acts);
  }

  lemma CallReturnsOne(s0: State, before: seq<Action>)
    requires IsRun(s0, before) && SecondIsIn(Exec(s0, before)) && Exec(s0, before).consumer == Outside
    requires Exec(s0, before).mem.head == Exec(s0, before).mem.shadow == REL_NULL
    ensures IsRun(s0, before + [IsEmpty, Consume]) && SecondIsIn(Exec(s0, before + [IsEmpty, Consume]))
    ensures Exec(s0, before + [IsEmpty, Consume]).consumer == Outside
  {
    var s := Exec(s0, before);
    ReturnsOne(s);
    var mid, s1 := Extend(s0, before, s, IsEmpty);
    var after, s2 := Extend(s0, mid, s1, Consume);
    assert before + [IsEmpty, Consume] == after;
  }

  /** A run in which the whole of is_empty, its two accesses, comes after the end of producer 2's enqueue,
      and returns 1 with that element in the queue. */
  lemma EmptyAlthoughEnqueued() returns (before: seq<Action>, call: seq<Action>)
    ensures Init(START) && call == [IsEmpty, Consume]
    ensures IsRun(START, before) && SecondIsIn(Exec(START, before)) && Exec(START, before).consumer == Outside
    ensures IsRun(START, before + call) && SecondIsIn(Exec(START, before + call))
    ensures Exec(START, before + call).consumer == Outside
  {
    StartIsInit();
    before := BothEnqueue();
    call := [IsEmpty, Consume];
    CallReturnsOne(START, before);
  }
}
