/**
 What the queue promises, for every run of any number of producers and one consumer:
 order, safe hand-off, the exact meaning of is_empty, and the end of the spin loop.
 */
module QueueTheorems {
  import opened QueueProtocol
  import opened QueueInvariant

  // ---------------------------------------------------------------- order

  /** The elements that p swapped in, in order. */
  function From(elts: seq<Ref>, who: seq<Tid>, p: Tid): seq<Ref>
    requires |elts| == |who|
  {
    if elts == [] then []
    else From(elts[..|elts| - 1], who[..|who| - 1], p) + if who[|who| - 1] == p then [elts[|elts| - 1]] else []
  }

  /** The element p has begun to enqueue and not swapped in yet, if there is one. */
  function NotYet(pr: Producer): seq<Ref> {
    if pr.Cleared? then [pr.elt] else []
  }

  ghost predicate InProgramOrder(s: State) {
    && |s.swapped| == |s.swapper|
    && s.issued.Keys == s.producers.Keys
    && forall p <- s.producers :: From(s.swapped, s.swapper, p) + NotYet(s.producers[p]) == s.issued[p]
  }

  lemma SwapOrder(s: State, p: Tid)
    requires InProgramOrder(s) && Enabled(s, Swap(p))
    ensures InProgramOrder(DoSwap(s, p))
  {
    var s' := DoSwap(s, p);
    assert s'.swapped[..|s'.swapped| - 1] == s.swapped && s'.swapper[..|s'.swapper| - 1] == s.swapper;
  }

  lemma StepOrder(s: State, a: Action)
    requires InProgramOrder(s) && Enabled(s, a)
    ensures InProgramOrder(Do(s, a))
  {
    match a
    case Swap(p) => SwapOrder(s, p);
    case Begin(p, e) => BeginOrder(s, p, e);
    case Link(p) => LinkOrder(s, p);
    case _ => OthersOrder(s, a);
  }

  lemma BeginOrder(s: State, p: Tid, e: Ref)
    requires InProgramOrder(s) && Enabled(s, Begin(p, e))
    ensures InProgramOrder(DoBegin(s, p, e))
  {
  }

  lemma LinkOrder(s: State, p: Tid)
    requires InProgramOrder(s) && Enabled(s, Link(p))
    ensures InProgramOrder(DoLink(s, p))
  {
  }

  lemma OthersOrder(s: State, a: Action)
    requires InProgramOrder(s) && Enabled(s, a) && (a.IsEmpty? || a.Consume? || a.Release?)
    ensures InProgramOrder(Do(s, a))
  {
    var s' := Do(s, a);
    assert s'.producers == s.producers && s'.issued == s.issued && s'.swapped == s.swapped && s'.swapper == s.swapper;
  }

  lemma {:induction false} RunOrder(s: State, acts: seq<Action>)
    requires InProgramOrder(s) && IsRun(s, acts)
    ensures InProgramOrder(Exec(s, acts))
    decreases acts
  {
    if acts != [] {
      StepOrder(s, acts[0]);
      RunOrder(Do(s, acts[0]), acts[1..]);
    }
  }

  lemma {:induction false} FromPrefix(elts: seq<Ref>, who: seq<Tid>, p: Tid, n: nat)
    requires |elts| == |who| && n <= |elts|
    ensures From(elts[..n], who[..n], p) <= From(elts, who, p)
    decreases elts
  {
    if n == |elts| {
      assert elts[..n] == elts && who[..n] == who;
    } else {
      var m := |elts| - 1;
      FromPrefix(elts[..m], who[..m], p, n);
      assert elts[..m][..n] == elts[..n] && who[..m][..n] == who[..n];
    }
  }

  /** What the logs say in a state that keeps the invariant and the program order. */
  ghost predicate InOrder(s: State) {
    && |s.dequeued| <= |s.swapped| == |s.swapper| && |s.returned| <= |s.swapper|
    && s.returned <= s.dequeued <= s.swapped
    && s.swapped == s.dequeued + Q(s)
    && |s.dequeued| <= |s.returned| + 1
    && s.issued.Keys == s.producers.Keys
    && forall p <- s.producers :: From(s.returned, s.swapper[..|s.returned|], p) <= s.issued[p]
  }

  lemma InvInOrder(s: State)
    requires Inv(s) && InProgramOrder(s)
    ensures InOrder(s)
  {
    assert s.returned == s.swapped[..|s.returned|];
    forall p <- s.producers
      ensures From(s.returned, s.swapper[..|s.returned|], p) <= s.issued[p]
    {
      FromPrefix(s.swapped, s.swapper, p, |s.returned|);
    }
  }

  /** FIFO. In every run the elements come back in the order of the tail swaps: what has been returned
      is a prefix of what has been swapped in, nothing lost, repeated or reordered; what is missing is in Q
      or in the consumer's hand. And what has come back from one producer is a prefix of
      what that producer enqueued, in its program order, even when elements are enqueued again. */
  lemma Fifo(s0: State, acts: seq<Action>)
    requires Init(s0) && IsRun(s0, acts)
    ensures InOrder(Exec(s0, acts))
  {
    InitInv(s0);
    RunInv(s0, acts);
    RunOrder(s0, acts);
    InvInOrder(Exec(s0, acts));
  }

  /** When nobody is in the middle of a call and tail is null, every element that was enqueued has been returned,
      once, and per producer in program order. */
  lemma Drained(s0: State, acts: seq<Action>)
    requires Init(s0) && IsRun(s0, acts)
    requires var s := Exec(s0, acts);
             s.consumer == Outside && s.mem.tail == REL_NULL && forall p <- s.producers :: s.producers[p] == Idle
    ensures var s := Exec(s0, acts);
            && s.returned == s.swapped
            && |s.returned| == |s.swapper| && s.issued.Keys == s.producers.Keys
            && forall p <- s.producers :: From(s.returned, s.swapper, p) == s.issued[p]
  {
    InitInv(s0);
    RunInv(s0, acts);
    RunOrder(s0, acts);
    DrainedState(Exec(s0, acts));
  }

  lemma DrainedState(s: State)
    requires Inv(s) && s.consumer == Outside && s.mem.tail == REL_NULL
    ensures s.returned == s.swapped
  {
    NotNull(s);
  }

  lemma NotNull(s: State)
    requires Inv(s)
    ensures forall i :: 0 <= i < |Q(s)| ==> Q(s)[i] != REL_NULL
  {
    var q := Q(s);
    assert forall i :: 0 <= i < |q| ==> q[i] in s.mem.next;
  }

  // ---------------------------------------------------------------- the shape of the list

  /** No two producers are between swap and link with the same element, or with the same predecessor. */
  lemma PendingUnique(s: State, p: Tid, p': Tid)
    requires Inv(s) && p in s.producers && p' in s.producers
    requires s.producers[p].Swapped? && s.producers[p'].Swapped?
    requires s.producers[p].elt == s.producers[p'].elt || s.producers[p].prev == s.producers[p'].prev
    ensures p == p'
  {
    var q, who := Q(s), By(s);
    assert StalledIn(s, q, who, p) && StalledIn(s, q, who, p');
    var i :| 0 <= i < |q| && who[i] == p && Stalled(s, q, who, i);
    var j :| 0 <= j < |q| && who[j] == p' && Stalled(s, q, who, j);
    NotNull(s);
    assert i == j;
  }

  /** The producer that owes the link to x, if any. */
  ghost predicate Owes(s: State, p: Tid, x: Ref, prev: Ref) {
    p in s.producers && s.producers[p] == Swapped(x, prev)
  }

  ghost predicate NobodyOwes(s: State, x: Ref, prev: Ref) {
    forall p :: !Owes(s, p, x, prev)
  }

  ghost predicate ExactlyOneOwes(s: State, x: Ref, prev: Ref) {
    exists p :: Owes(s, p, x, prev) && forall p' :: Owes(s, p', x, prev) ==> p' == p
  }

  /** In every reachable state tail is the last element of Q (null if there is none), and of any two neighbours
      either the link is there and nobody owes it, or next is null and exactly one producer owes it. */
  lemma ListShape(s: State)
    requires Inv(s)
    ensures s.mem.tail == if Q(s) == [] then REL_NULL else Q(s)[|Q(s)| - 1]
    ensures forall i, j :: 0 <= i < |Q(s)| && j == i + 1 < |Q(s)| ==>
              || (Next(s.mem, Q(s)[i]) == Q(s)[j] && NobodyOwes(s, Q(s)[j], Q(s)[i]))
              || (Next(s.mem, Q(s)[i]) == REL_NULL && ExactlyOneOwes(s, Q(s)[j], Q(s)[i]))
    ensures Q(s) != [] ==> Next(s.mem, Q(s)[|Q(s)| - 1]) == REL_NULL
  {
    forall i, j | 0 <= i < |Q(s)| && j == i + 1 < |Q(s)|
      ensures || (Next(s.mem, Q(s)[i]) == Q(s)[j] && NobodyOwes(s, Q(s)[j], Q(s)[i]))
              || (Next(s.mem, Q(s)[i]) == REL_NULL && ExactlyOneOwes(s, Q(s)[j], Q(s)[i]))
    {
      PairShape(s, i);
    }
  }

  lemma PairShape(s: State, i: nat)
    requires Inv(s) && i + 1 < |Q(s)|
    ensures || (Next(s.mem, Q(s)[i]) == Q(s)[i + 1] && NobodyOwes(s, Q(s)[i + 1], Q(s)[i]))
            || (Next(s.mem, Q(s)[i]) == REL_NULL && ExactlyOneOwes(s, Q(s)[i + 1], Q(s)[i]))
  {
    var q, who := Q(s), By(s);
    var x, prev := q[i + 1], q[i];
    if Stalled(s, q, who, i + 1) {
      assert Owes(s, who[i + 1], x, prev);
      forall p' | Owes(s, p', x, prev)
        ensures p' == who[i + 1]
      {
        PendingUnique(s, p', who[i + 1]);
      }
    } else {
      forall p
        ensures !Owes(s, p, x, prev)
      {
        if p in s.producers && s.producers[p].Swapped? {
          assert StalledIn(s, q, who, p);
        }
      }
    }
  }

  /** The front of a nonempty queue is reachable in exactly one of the four ways. */
  lemma OneWayToFront(s: State)
    requires Inv(s) && Q(s) != []
    ensures exists f :: Reached(s, Q(s), By(s), f) && forall f' :: Reached(s, Q(s), By(s), f') ==> f' == f
  {
    var q, who := Q(s), By(s);
    assert q[0] in s.mem.next;
    var f :| FrontReached(s, q, who, f);
    assert Reached(s, q, who, f);
    forall f' | Reached(s, q, who, f')
      ensures f' == f
    {
    }
  }

  /** At most one producer is between swap and link with a null predecessor, and while one is, head and shadow_head
      are null and the consumer is not between copying head and resetting it, nor holds the front:
      so no store to head falls into the two-step transfer. */
  lemma OneHeadWriter(s: State, p: Tid)
    requires Inv(s) && p in s.producers && s.producers[p].Swapped? && s.producers[p].prev == REL_NULL
    ensures s.mem.head == s.mem.shadow == REL_NULL
    ensures s.consumer == Outside || s.consumer == TestHead || s.consumer.Unlinked? || s.consumer.Done?
    ensures Q(s) != [] && s.producers[p].elt == Q(s)[0]
    ensures forall p' :: p' in s.producers && s.producers[p'].Swapped? && s.producers[p'].prev == REL_NULL ==> p' == p
  {
    var q, who := Q(s), By(s);
    assert StalledIn(s, q, who, p);
    var i :| 0 <= i < |q| && who[i] == p && Stalled(s, q, who, i);
    NotNull(s);
    assert i == 0;
    forall p' | p' in s.producers && s.producers[p'].Swapped? && s.producers[p'].prev == REL_NULL
      ensures p' == p
    {
      PendingUnique(s, p', p);
    }
  }

  // ---------------------------------------------------------------- returned elements

  /** Nothing in the system refers to e any more, so that its owner may free or reuse it. */
  ghost predicate Isolated(s: State, e: Ref)
    requires |s.dequeued| <= |s.swapped|
  {
    && e != REL_NULL && e != s.mem.head && e != s.mem.tail && e != s.mem.shadow
    && e !in Q(s)
    && (forall x <- Q(s) :: Next(s.mem, x) != e)
    && (forall p <- s.producers :: match s.producers[p]
          case Idle => true
          case Cleared(x) => x != e
          case Swapped(x, prev) => x != e && prev != e)
    && Next(s.mem, e) == REL_NULL
  }

  /** From the return of a dequeue until its client gives it up, the element is isolated, whatever the producers do. */
  lemma ReturnedIsIsolated(s: State, e: Ref)
    requires Inv(s) && (e in s.held || s.consumer == Done(e))
    ensures Isolated(s, e)
  {
    var q, who := Q(s), By(s);
    assert InHand(s.consumer, e) || e in s.held;
    assert e in s.mem.next;
    var f :| FrontReached(s, q, who, f);
    if q != [] {
      assert q[0] in q && q[|q| - 1] in q;
    }
    forall i | 0 <= i < |q|
      ensures Next(s.mem, q[i]) != e
    {
      assert Next(s.mem, q[i]) != REL_NULL ==> i + 1 < |q| && Next(s.mem, q[i]) == q[i + 1];
    }
    forall p <- s.producers | s.producers[p].Swapped?
      ensures s.producers[p].elt != e && s.producers[p].prev != e
    {
      assert StalledIn(s, q, who, p);
    }
  }

  // ---------------------------------------------------------------- the spin loop

  /** While the consumer spins on a null next, exactly one producer is between its swap and the link the consumer
      waits for; its link step is enabled and ends the wait; no other step of anybody takes that away. */
  lemma SpinIsOwed(s: State)
    requires Inv(s) && s.consumer.Spinning? && Next(s.mem, s.consumer.elt) == REL_NULL
    ensures var e := s.consumer.elt;
            exists p, x ::
              && Owes(s, p, x, e)
              && (forall p', x' :: Owes(s, p', x', e) ==> p' == p && x' == x)
              && Enabled(s, Link(p)) && Do(s, Link(p)).mem.next[e] == x
              && (forall a :: Enabled(s, a) && a != Link(p) ==>
                    Owes(Do(s, a), p, x, e) && Do(s, a).consumer == s.consumer && Next(Do(s, a).mem, e) == REL_NULL)
  {
    var e := s.consumer.elt;
    var q, who := Q(s), By(s);
    assert Stalled(s, q, who, 1);
    var p, x := who[1], q[1];
    assert Owes(s, p, x, e);
    forall p', x' | Owes(s, p', x', e)
      ensures p' == p && x' == x
    {
      PendingUnique(s, p', p);
    }
    assert q[0] in s.mem.next;
    forall a | Enabled(s, a) && a != Link(p)
      ensures Owes(Do(s, a), p, x, e) && Do(s, a).consumer == s.consumer && Next(Do(s, a).mem, e) == REL_NULL
    {
      SpinKept(s, p, x, a);
    }
  }

  lemma SpinKept(s: State, p: Tid, x: Ref, a: Action)
    requires Inv(s) && s.consumer.Spinning? && Next(s.mem, s.consumer.elt) == REL_NULL
    requires Owes(s, p, x, s.consumer.elt) && Enabled(s, a) && a != Link(p)
    ensures Owes(Do(s, a), p, x, s.consumer.elt)
    ensures Do(s, a).consumer == s.consumer && Next(Do(s, a).mem, s.consumer.elt) == REL_NULL
  {
    if a.Link? {
      if s.producers[a.p].prev == s.consumer.elt {
        PendingUnique(s, p, a.p);
      }
    } else {
      SpinKeptByOthers(s, p, x, a);
    }
  }

  lemma SpinKeptByOthers(s: State, p: Tid, x: Ref, a: Action)
    requires s.consumer.Spinning? && Next(s.mem, s.consumer.elt) == REL_NULL
    requires Owes(s, p, x, s.consumer.elt) && Enabled(s, a) && !a.Link?
    ensures Owes(Do(s, a), p, x, s.consumer.elt)
    ensures Do(s, a).consumer == s.consumer && Next(Do(s, a).mem, s.consumer.elt) == REL_NULL
  {
  }

  /** The consumer still stands at its test of next, and the test will now let it go on. */
  predicate WaitOver(s: State, c: Consumer) {
    c.Spinning? && s.consumer == c && Enabled(s, Consume) && Do(s, Consume).consumer == Advancing(c.elt)
  }

  /** After n of these actions the wait is over. */
  ghost predicate WaitOverAfter(s: State, acts: seq<Action>, n: nat, c: Consumer) {
    n <= |acts| && IsRun(s, acts[..n]) && WaitOver(Exec(s, acts[..n]), c)
  }

  lemma WaitOverLater(s: State, acts: seq<Action>, n: nat, c: Consumer)
    requires acts != [] && Enabled(s, acts[0]) && WaitOverAfter(Do(s, acts[0]), acts[1..], n, c)
    ensures WaitOverAfter(s, acts, n + 1, c)
  {
    StepThenRun(s, acts[0], acts[1..][..n]);
    assert acts[..n + 1] == [acts[0]] + acts[1..][..n];
  }

  /** In every run from a spinning state in which the owing producer gets its turn, the wait is over after
      that turn, whatever the run does before: the consumer's next test leaves the loop. */
  lemma {:induction false} SpinEnds(s: State, acts: seq<Action>, p: Tid, x: Ref)
    requires Inv(s) && s.consumer.Spinning? && Owes(s, p, x, s.consumer.elt) && IsRun(s, acts)
    requires Next(s.mem, s.consumer.elt) == REL_NULL
    requires Link(p) in acts
    ensures exists n :: 0 < n && WaitOverAfter(s, acts, n, s.consumer)
    decreases acts
  {
    var a := acts[0];
    if a == Link(p) {
      LinkEndsWait(s, p, x);
      assert WaitOverAfter(Do(s, a), acts[1..], 0, s.consumer);
      WaitOverLater(s, acts, 0, s.consumer);
    } else {
      SpinKept(s, p, x, a);
      StepInv(s, a);
      SpinEnds(Do(s, a), acts[1..], p, x);
      var n :| 0 < n && WaitOverAfter(Do(s, a), acts[1..], n, s.consumer);
      WaitOverLater(s, acts, n, s.consumer);
    }
  }

  lemma LinkEndsWait(s: State, p: Tid, x: Ref)
    requires Inv(s) && s.consumer.Spinning? && Owes(s, p, x, s.consumer.elt)
    ensures Enabled(s, Link(p)) && WaitOver(Do(s, Link(p)), s.consumer)
  {
    var q, who := Q(s), By(s);
    assert StalledIn(s, q, who, p);
    NotNull(s);
  }

  // ---------------------------------------------------------------- is_empty and peek

  /** The producer of the front is between its swap and its store to head. */
  ghost predicate FrontPending(s: State)
    requires |s.dequeued| <= |s.swapped|
  {
    Q(s) != [] && exists p :: Owes(s, p, Q(s)[0], REL_NULL)
  }

  /** At its test of head, is_empty returns 1 exactly if the queue is empty or its first element's
      producer has not stored head yet. */
  lemma EmptyExactly(s: State)
    requires Inv(s) && s.consumer == TestHead
    ensures Do(s, Consume).consumer == Outside <==> Q(s) == [] || FrontPending(s)
  {
    var q, who := Q(s), By(s);
    var f :| FrontReached(s, q, who, f);
    if q != [] {
      assert q[0] in s.mem.next;
      if f == ByProducer {
        assert Owes(s, who[0], q[0], REL_NULL);
      }
      if FrontPending(s) {
        var p :| Owes(s, p, q[0], REL_NULL);
        OneHeadWriter(s, p);
      }
    }
  }

  /** A whole call of is_empty that nobody interrupts, with no producer between swap and link: it returns 1 iff Q is
      empty. */
  lemma EmptyWhenQuiet(s: State)
    requires Inv(s) && s.consumer == Outside && (forall p <- s.producers :: !s.producers[p].Swapped?)
    ensures var s1 := Do(s, IsEmpty);
            if Q(s) == [] then s1.consumer == TestHead && Do(s1, Consume).consumer == Outside
            else s1.consumer == Ready
                 || (s1.consumer == TestHead && IsRun(s1, [Consume, Consume, Consume])
                     && Exec(s1, [Consume, Consume, Consume]).consumer == Ready)
  {
    var s1 := Do(s, IsEmpty);
    StepInv(s, IsEmpty);
    if s1.consumer == TestHead {
      EmptyExactly(s1);
      if Q(s) != [] {
        var s2 := Do(s1, Consume);
        var s3 := Do(s2, Consume);
        assert [Consume, Consume, Consume][1..] == [Consume, Consume];
        assert [Consume, Consume][1..] == [Consume];
        assert [Consume][1..] == [];
        assert Exec(s1, [Consume, Consume, Consume]) == Do(s3, Consume);
      }
    }
  }

  /** With no producer between swap and link, every element that has a successor is linked to it. */
  lemma QuietLinks(s: State)
    requires Inv(s) && Q(s) != [] && (forall p <- s.producers :: !s.producers[p].Swapped?)
    ensures Next(s.mem, Q(s)[0]) != REL_NULL <==> |Q(s)| > 1
    ensures |Q(s)| == 1 ==> s.mem.tail == Q(s)[0]
  {
    NotNull(s);
    if |Q(s)| > 1 {
      assert !Stalled(s, Q(s), By(s), 1);
    }
  }

  /** From where dequeue has found its element to where that is out of the list. */
  lemma UnlinkWhenQuiet(s: State, e: Ref) returns (acts: seq<Action>, s': State)
    requires Inv(s) && s.consumer == Loaded(e) && (forall p <- s.producers :: !s.producers[p].Swapped?)
    requires Q(s) != [] && Q(s)[0] == e
    ensures IsRun(s, acts) && Exec(s, acts) == s' && s'.consumer == Unlinked(e) && s'.returned == s.returned
    ensures (forall a <- acts :: a == Consume) && |acts| <= 3
  {
    QuietLinks(s);
    acts, s' := Extend(s, [], s, Consume);
    acts, s' := Extend(s, acts, s', Consume);
    if |Q(s)| == 1 {
      acts, s' := Extend(s, acts, s', Consume);
    }
  }

  /** A whole call of dequeue that nobody interrupts, with no producer between swap and link, returns the front
      in at most six accesses. */
  lemma DequeueWhenQuiet(s: State) returns (acts: seq<Action>)
    requires Inv(s) && s.consumer == Ready && (forall p <- s.producers :: !s.producers[p].Swapped?)
    ensures Q(s) != [] && IsRun(s, acts) && (forall a <- acts :: a == Consume) && |acts| <= 6
    ensures Exec(s, acts).consumer == Outside && Exec(s, acts).returned == s.returned + [Q(s)[0]]
  {
    ReadyFront(s);
    var e, s1 := Q(s)[0], Do(s, Consume);
    StepInv(s, Consume);
    StepQueue(s, Consume);
    var more, s2 := UnlinkWhenQuiet(s1, e);
    acts := CloseDequeue(s, s1, more, s2, e);
  }

  lemma CloseDequeue(s: State, s1: State, more: seq<Action>, s2: State, e: Ref) returns (acts: seq<Action>)
    requires Enabled(s, Consume) && s1 == Do(s, Consume) && IsRun(s1, more) && Exec(s1, more) == s2
    requires s2.consumer == Unlinked(e) && (forall a <- more :: a == Consume) && |more| <= 3
    ensures IsRun(s, acts) && (forall a <- acts :: a == Consume) && |acts| <= 6
    ensures Exec(s, acts).consumer == Outside && Exec(s, acts).returned == s2.returned + [e]
  {
    StepThenRun(s, Consume, more);
    var s3;
    acts, s3 := Extend(s, [Consume] + more, s2, Consume);
    acts, s3 := Extend(s, acts, s3, Consume);
  }

  predicate ProducersOnly(acts: seq<Action>) {
    forall a <- acts :: a.Begin? || a.Swap? || a.Link?
  }

  lemma ReadyFront(s: State)
    requires Inv(s) && s.consumer == Ready
    ensures Q(s) != [] && s.mem.shadow == Q(s)[0]
  {
    var f :| FrontReached(s, Q(s), By(s), f);
    assert Q(s) != [] ==> Q(s)[0] in s.mem.next;
  }

  /** A 0 result means that shadow_head is the front of the queue; no producer step changes that. */
  lemma {:induction false} ReadyStays(s: State, acts: seq<Action>)
    requires Inv(s) && s.consumer == Ready && IsRun(s, acts) && ProducersOnly(acts)
    ensures Q(s) != [] && s.mem.shadow == Q(s)[0]
    ensures var s' := Exec(s, acts);
            s'.consumer == Ready && s'.mem.shadow == s.mem.shadow && Inv(s') && Q(s) <= Q(s')
    decreases acts
  {
    ReadyFront(s);
    if acts != [] {
      ReadyStep(s, acts[0]);
      ReadyStays(Do(s, acts[0]), acts[1..]);
    }
  }

  lemma ReadyStep(s: State, a: Action)
    requires Inv(s) && Enabled(s, a) && ProducersOnly([a])
    ensures Inv(Do(s, a)) && Q(s) <= Q(Do(s, a))
    ensures Do(s, a).consumer == s.consumer && Do(s, a).mem.shadow == s.mem.shadow
  {
    assert a in [a];
    StepInv(s, a);
    StepQueue(s, a);
  }

  /** What OPA_Queue_peek_head returns, as a relative pointer. */
  function PeekHead(s: State): Ref {
    s.mem.shadow
  }

  lemma {:induction false} ReturnedGrows(s: State, acts: seq<Action>)
    requires IsRun(s, acts)
    ensures s.returned <= Exec(s, acts).returned && s.swapped <= Exec(s, acts).swapped
    decreases acts
  {
    if acts != [] {
      ReturnedGrows(Do(s, acts[0]), acts[1..]);
    }
  }

  /** After is_empty has returned 0, peek_head names the element that the next dequeue returns,
      whatever the other threads do in between and during the dequeue. */
  lemma PeekIsNext(s: State, acts: seq<Action>)
    requires Inv(s) && s.consumer == Ready && IsRun(s, acts)
    requires |Exec(s, acts).returned| > |s.returned|
    ensures Exec(s, acts).returned[|s.returned|] == PeekHead(s)
  {
    RunInv(s, acts);
    ReadyStays(s, []);
    ReturnedGrows(s, acts);
    SameFront(s, Exec(s, acts));
  }

  lemma SameFront(s: State, s': State)
    requires LogsAgree(s) && LogsAgree(s') && s.consumer == Ready && Q(s) != []
    requires s.swapped <= s'.swapped && |s.returned| < |s'.returned|
    ensures s'.returned[|s.returned|] == Q(s)[0]
  {
    var n := |s.returned|;
    assert s'.returned[n] == s'.dequeued[n] == s'.swapped[n] == s.swapped[n];
  }
}
