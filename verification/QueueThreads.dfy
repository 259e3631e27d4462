/**
 Enqueue, is_empty, peek_head and dequeue as a producer and the consumer run them, statement by statement, while all
 other threads take steps between their accesses. `sys` is the system around the thread: where the others are, and
 the logs. The methods move it along and so show that their statements are the thread's steps in it.
 */
module QueueThreads {
  import opened Options
  import opened QueueProtocol
  import opened QueueInvariant
  import opened QueueTheorems

  /** The steps that the producers try to take before each access of the consumer, turn by turn. */
  type Script = seq<seq<Action>>

  function Turn(script: Script, i: nat): seq<Action> {
    if i < |script| then script[i] else []
  }

  predicate OfProducer(a: Action) {
    a.Begin? || a.Swap? || a.Link?
  }

  /** The system after those of the proposed steps have been taken that may be and can be. */
  function AfterTurn(s: State, turn: seq<Action>, may: Action -> bool): State {
    if turn == [] then s
    else
      var before, a := AfterTurn(s, turn[..|turn| - 1], may), turn[|turn| - 1];
      if may(a) && Enabled(before, a) then Do(before, a) else before
  }

  /** After several turns of the producers. */
  function AfterTurns(s: State, script: Script): State {
    if script == [] then s
    else AfterTurn(AfterTurns(s, script[..|script| - 1]), script[|script| - 1], OfProducer)
  }

  lemma AfterTurnNext(s: State, turn: seq<Action>, i: nat, may: Action -> bool)
    requires i < |turn|
    ensures var before := AfterTurn(s, turn[..i], may);
            AfterTurn(s, turn[..i + 1], may)
            == if may(turn[i]) && Enabled(before, turn[i]) then Do(before, turn[i]) else before
  {
    assert turn[..i + 1][..i] == turn[..i];
  }

  lemma AfterTurnsNext(s: State, script: Script, i: nat)
    requires i < |script|
    ensures AfterTurns(s, script[..i + 1]) == AfterTurn(AfterTurns(s, script[..i]), script[i], OfProducer)
  {
    assert script[..i + 1][..i] == script[..i];
  }

  /** The element is linked to its successor after i turns of the producers. */
  predicate LinkedAfter(s: State, script: Script, i: nat, e: Ref)
    requires i <= |script|
  {
    Next(AfterTurns(s, script[..i]).mem, e) != REL_NULL
  }

  /** The first number of turns, from this one on, after which the element is linked; one more than there are if
      there is none. */
  function FirstLinked(s: State, script: Script, from: nat, e: Ref): (n: nat)
    requires from <= |script| + 1
    ensures from <= n <= |script| + 1 && (forall i :: from <= i < n ==> !LinkedAfter(s, script, i, e))
    ensures n <= |script| ==> LinkedAfter(s, script, n, e)
    decreases |script| + 1 - from
  {
    if from > |script| || LinkedAfter(s, script, from, e) then from else FirstLinked(s, script, from + 1, e)
  }

  // ---------------------------------------------------------------- who ends the wait

  /** The consumer spins on e, and either e is linked or p owes the link and has not been asked to store it. */
  ghost predicate LinkedOrOwed(s: State, e: Ref, p: Tid, x: Ref, asked: seq<Action>) {
    && Inv(s) && s.consumer == Spinning(e)
    && (Next(s.mem, e) != REL_NULL || (Owes(s, p, x, e) && Link(p) !in asked))
  }

  lemma LinkedStays(s: State, a: Action, e: Ref)
    requires Inv(s) && s.consumer == Spinning(e) && Next(s.mem, e) != REL_NULL && OfProducer(a) && Enabled(s, a)
    ensures Do(s, a).consumer == s.consumer && Next(Do(s, a).mem, e) != REL_NULL
  {
    assert e in Q(s);
    if a.Link? {
      ElementNotNull(s, a.p);
    }
  }

  lemma ElementNotNull(s: State, p: Tid)
    requires Inv(s) && p in s.producers && s.producers[p].Swapped?
    ensures s.producers[p].elt != REL_NULL
  {
    assert StalledIn(s, Q(s), By(s), p);
    NotNull(s);
  }

  lemma WaitStep(s: State, a: Action, e: Ref, p: Tid, x: Ref, asked: seq<Action>)
    requires LinkedOrOwed(s, e, p, x, asked) && OfProducer(a) && Enabled(s, a)
    ensures LinkedOrOwed(Do(s, a), e, p, x, asked + [a])
  {
    StepInv(s, a);
    if Next(s.mem, e) != REL_NULL {
      LinkedStays(s, a, e);
    } else if a == Link(p) {
      LinkEndsWait(s, p, x);
    } else {
      SpinKept(s, p, x, a);
    }
  }

  lemma {:induction false} TurnWaits(s: State, turn: seq<Action>, e: Ref, p: Tid, x: Ref)
    requires LinkedOrOwed(s, e, p, x, [])
    ensures LinkedOrOwed(AfterTurn(s, turn, OfProducer), e, p, x, turn)
    decreases |turn|
  {
    if turn != [] {
      var before, a := turn[..|turn| - 1], turn[|turn| - 1];
      TurnWaits(s, before, e, p, x);
      assert turn == before + [a];
      if OfProducer(a) && Enabled(AfterTurn(s, before, OfProducer), a) {
        WaitStep(AfterTurn(s, before, OfProducer), a, e, p, x, before);
      }
    }
  }

  /** After these turns: linked, or owed by p, which has never been asked to link. */
  ghost predicate Waited(s: State, script: Script, e: Ref, p: Tid, x: Ref) {
    LinkedOrOwed(s, e, p, x, []) && (Next(s.mem, e) == REL_NULL ==> NeverAsked(script, p))
  }

  lemma WaitedOn(s: State, before: Script, turn: seq<Action>, e: Ref, p: Tid, x: Ref)
    requires Waited(s, before, e, p, x)
    ensures Waited(AfterTurn(s, turn, OfProducer), before + [turn], e, p, x)
  {
    OneTurn(s, turn, e, p, x);
  }

  /** If the owing producer is asked to link in one of the turns, the element is linked after that turn and stays so. */
  lemma {:induction false} TurnsWait(s: State, script: Script, e: Ref, p: Tid, x: Ref)
    requires Waited(s, [], e, p, x)
    ensures Waited(AfterTurns(s, script), script, e, p, x)
    decreases |script|
  {
    if script != [] {
      var before, turn := script[..|script| - 1], script[|script| - 1];
      TurnsWait(s, before, e, p, x);
      LastTurn(s, before, turn, e, p, x);
      assert before + [turn] == script;
    }
  }

  lemma LastTurn(s: State, before: Script, turn: seq<Action>, e: Ref, p: Tid, x: Ref)
    requires Waited(AfterTurns(s, before), before, e, p, x)
    ensures Waited(AfterTurns(s, before + [turn]), before + [turn], e, p, x)
  {
    WaitedOn(AfterTurns(s, before), before, turn, e, p, x);
    AfterTurnsNext(s, before + [turn], |before|);
    assert (before + [turn])[..|before|] == before && (before + [turn])[..|before| + 1] == before + [turn];
  }

  lemma OneTurn(s: State, turn: seq<Action>, e: Ref, p: Tid, x: Ref)
    requires LinkedOrOwed(s, e, p, x, [])
    ensures var s' := AfterTurn(s, turn, OfProducer);
            && LinkedOrOwed(s', e, p, x, [])
            && (Next(s'.mem, e) == REL_NULL ==> Next(s.mem, e) == REL_NULL && Link(p) !in turn)
  {
    TurnWaits(s, turn, e, p, x);
    if Next(s.mem, e) != REL_NULL {
      LinkedTurn(s, turn, e);
    }
  }

  lemma {:induction false} LinkedTurn(s: State, turn: seq<Action>, e: Ref)
    requires Inv(s) && s.consumer == Spinning(e) && Next(s.mem, e) != REL_NULL
    ensures var s' := AfterTurn(s, turn, OfProducer);
            Inv(s') && s'.consumer == Spinning(e) && Next(s'.mem, e) != REL_NULL
    decreases |turn|
  {
    if turn != [] {
      var before, a := AfterTurn(s, turn[..|turn| - 1], OfProducer), turn[|turn| - 1];
      LinkedTurn(s, turn[..|turn| - 1], e);
      if OfProducer(a) && Enabled(before, a) {
        LinkedStays(before, a, e);
        StepInv(before, a);
      }
    }
  }

  predicate NeverAsked(script: Script, p: Tid) {
    forall i :: 0 <= i < |script| ==> Link(p) !in script[i]
  }

  /** A producer owes the link to e that these turns have not asked to store it. */
  ghost predicate StillOwed(s: State, e: Ref, script: Script) {
    exists p, x :: Owes(s, p, x, e) && NeverAsked(script, p)
  }

  /** The element is not linked after all the turns, so its link has never been asked for. */
  lemma NotLinked(s: State, script: Script, e: Ref)
    requires Inv(s) && s.consumer == Spinning(e) && Next(s.mem, e) == REL_NULL
    requires Next(AfterTurns(s, script).mem, e) == REL_NULL
    ensures StillOwed(AfterTurns(s, script), e, script)
    ensures forall p, x :: Owes(s, p, x, e) ==> NeverAsked(script, p)
  {
    forall p, x | Owes(s, p, x, e)
      ensures NeverAsked(script, p) && Owes(AfterTurns(s, script), p, x, e)
    {
      TurnsWait(s, script, e, p, x);
    }
    SpinIsOwed(s);
    var p, x :| Owes(s, p, x, e);
    assert Owes(AfterTurns(s, script), p, x, e);
  }

  /** Between two accesses of a call that is not over yet: the swap log has only grown and nothing has been returned. */
  predicate Goes(s: State, s': State) {
    s.swapped <= s'.swapped && s'.returned == s.returned
  }

  lemma ProducerGoes(s: State, a: Action)
    requires OfProducer(a) && Enabled(s, a)
    ensures Goes(s, Do(s, a)) && Do(s, a).consumer == s.consumer && Do(s, a).mem.shadow == s.mem.shadow
  {
  }

  /** The action is a step of p's enqueue. */
  predicate StepOf(a: Action, p: Tid) {
    OfProducer(a) && a.p == p
  }

  function NotOf(p: Tid): Action -> bool {
    (a: Action) => !StepOf(a, p)
  }

  /** What p relies on while it is between two accesses. */
  predicate Around(s: State, s': State, p: Tid) {
    && p in s.producers && p in s'.producers && s'.producers[p] == s.producers[p]
    && p in s.issued && p in s'.issued && s'.issued[p] == s.issued[p]
    && s.swapped <= s'.swapped && s.swapper <= s'.swapper
  }

  lemma OthersAround(s: State, a: Action, p: Tid)
    requires Enabled(s, a) && p in s.producers && p in s.issued && !StepOf(a, p)
    ensures Around(s, Do(s, a), p)
  {
  }

  lemma NullHead(s: State)
    requires Inv(s) && s.consumer == TestHead
    ensures var s' := Do(s, Consume);
            && |s'.dequeued| <= |s'.swapped|
            && (s.mem.head == REL_NULL <==> Q(s') == [] || FrontPending(s'))
  {
    EmptyExactly(s);
    var s' := Do(s, Consume);
    assert Q(s') == Q(s) && s'.producers == s.producers;
    assert forall p, x :: Owes(s', p, x, REL_NULL) == Owes(s, p, x, REL_NULL);
    assert FrontPending(s') == FrontPending(s);
  }

  /** When only e has been returned and only swaps have happened, the rest of the queue is still there, in order, in
      front. */
  lemma RestStays(s: State, s': State, e: Ref)
    requires LogsAgree(s) && s.consumer == Ready && LogsAgree(s') && s'.consumer == Outside
    requires s'.returned == s.returned + [e] && s.swapped <= s'.swapped && Q(s) != []
    ensures Q(s)[1..] <= Q(s')
  {
  }

  class SharedQueue {
    var head: Ref
    var tail: Ref
    var shadowHead: Ref
    var next: map<Ref, Ref>
    var sys: State
    ghost var start: State
    ghost var trace: seq<Action>

    /** The fields are the shared memory of the system, which a run has brought here from the initial state. */
    ghost predicate Valid()
      reads this
    {
      && sys.mem == Mem(head, tail, shadowHead, next)
      && Init(start) && IsRun(start, trace) && Exec(start, trace) == sys
    }

    /** The state after OPA_Queue_init. */
    constructor (elements: map<Ref, Ref>, threads: set<Tid>)
      requires REL_NULL !in elements
      ensures Valid() && sys.producers.Keys == threads && next == elements && trace == []
    {
      head, tail, shadowHead, next := REL_NULL, REL_NULL, REL_NULL, elements;
      var s := State(Mem(REL_NULL, REL_NULL, REL_NULL, elements), map p | p in threads :: Idle,
                     Outside, {}, [], [], [], [], map p | p in threads :: []);
      sys, start, trace := s, s, [];
    }

    lemma Reachable()
      requires Valid()
      ensures Inv(sys) && InOrder(sys)
    {
      InitInv(start);
      RunInv(start, trace);
      Fifo(start, trace);
    }

    lemma ReachableInv()
      requires Valid()
      ensures Inv(sys)
    {
      Reachable();
    }

    /** The step has been made on the fields; this is the same step in the system. */
    method Step(a: Action)
      requires Enabled(sys, a) && Do(sys, a).mem == Mem(head, tail, shadowHead, next)
      requires Init(start) && IsRun(start, trace) && Exec(start, trace) == sys
      modifies this`sys, this`trace
      ensures Valid() && sys == Do(old(sys), a) && trace == old(trace) + [a]
    {
      ExecAppend(start, trace, a);
      trace := trace + [a];
      sys := Do(sys, a);
    }

    /** Producers take those of the proposed steps that they can take. */
    method Producers(turn: seq<Action>)
      requires Valid()
      modifies this
      ensures start == old(start) && old(trace) <= trace
      ensures Valid() && Goes(old(sys), sys) && sys.consumer == old(sys.consumer) && shadowHead == old(shadowHead)
      ensures sys == AfterTurn(old(sys), turn, OfProducer)
    {
      for i := 0 to |turn|
        invariant start == old(start) && old(trace) <= trace
        invariant Valid() && Goes(old(sys), sys) && sys.consumer == old(sys.consumer) && shadowHead == old(shadowHead)
        invariant sys == AfterTurn(old(sys), turn[..i], OfProducer)
      {
        AfterTurnNext(old(sys), turn, i, OfProducer);
        if OfProducer(turn[i]) && Enabled(sys, turn[i]) {
          ProducerGoes(sys, turn[i]);
          Take(turn[i]);
        }
      }
      assert turn[..|turn|] == turn;
    }

    /** Another thread's step. */
    method Take(a: Action)
      requires Valid() && Enabled(sys, a)
      modifies this
      ensures start == old(start) && old(trace) <= trace
      ensures Valid() && sys == Do(old(sys), a)
    {
      var m := Do(sys, a).mem;
      head, tail, shadowHead, next := m.head, m.tail, m.shadow, m.next;
      Step(a);
    }

    // -------------------------------------------------------------- enqueue

    /** The other threads, consumer included, take those of the proposed steps that they can take. */
    method Others(turn: seq<Action>, p: Tid)
      requires Valid() && p in sys.producers && p in sys.issued
      modifies this
      ensures start == old(start) && old(trace) <= trace
      ensures Valid() && Around(old(sys), sys, p) && sys == AfterTurn(old(sys), turn, NotOf(p))
    {
      for i := 0 to |turn|
        invariant start == old(start) && old(trace) <= trace
        invariant Valid() && Around(old(sys), sys, p) && sys == AfterTurn(old(sys), turn[..i], NotOf(p))
      {
        AfterTurnNext(old(sys), turn, i, NotOf(p));
        if !StepOf(turn[i], p) && Enabled(sys, turn[i]) {
          OthersAround(sys, turn[i], p);
          Take(turn[i]);
        }
      }
      assert turn[..|turn|] == turn;
    }

    method ClearNext(p: Tid, elt: Ref)
      requires Valid() && Enabled(sys, Begin(p, elt))
      modifies this
      ensures start == old(start) && old(trace) <= trace
      ensures Valid() && sys == Do(old(sys), Begin(p, elt))
    {
      next := next[elt := REL_NULL];
      Step(Begin(p, elt));
    }

    method SwapTail(p: Tid, elt: Ref) returns (prev: Ref)
      requires Valid() && p in sys.producers && sys.producers[p] == Cleared(elt)
      modifies this
      ensures start == old(start) && old(trace) <= trace
      ensures Valid() && sys == Do(old(sys), Swap(p)) && prev == old(tail) && tail == elt
      ensures sys.producers[p] == Swapped(elt, prev)
    {
      prev := tail;
      tail := elt;
      Step(Swap(p));
    }

    method LinkIn(p: Tid, elt: Ref, prev: Ref)
      requires Valid() && p in sys.producers && sys.producers[p] == Swapped(elt, prev)
      modifies this
      ensures start == old(start) && old(trace) <= trace
      ensures Valid() && sys == Do(old(sys), Link(p))
    {
      if prev == REL_NULL {
        head := elt;
      } else {
        next := next[prev := elt];
      }
      Step(Link(p));
    }

    /** The element is swapped in once, by p, as the latest of p's elements, and in the end p owes no link. */
    method Enqueue(p: Tid, elt: Ref, beforeSwap: seq<Action>, beforeLink: seq<Action>)
      requires Valid() && Enabled(sys, Begin(p, elt))
      modifies this
      ensures start == old(start) && old(trace) <= trace
      ensures Valid() && p in sys.producers && sys.producers[p] == Idle
      ensures p in old(sys).issued && p in sys.issued && sys.issued[p] == old(sys).issued[p] + [elt]
      ensures |sys.swapped| == |sys.swapper| && From(sys.swapped, sys.swapper, p) == old(sys).issued[p] + [elt]
      ensures old(sys.swapped) <= sys.swapped
    {
      ClearNext(p, elt);
      Others(beforeSwap, p);
      var prev := SwapTail(p, elt);
      Others(beforeLink, p);
      LinkIn(p, elt, prev);
      ProgramOrder(p);
    }

    /** What p has swapped in is what it has issued, unless it stands before its swap. */
    lemma ProgramOrder(p: Tid)
      requires Valid() && p in sys.producers && sys.producers[p] == Idle
      ensures |sys.swapped| == |sys.swapper| && p in sys.issued
      ensures From(sys.swapped, sys.swapper, p) == sys.issued[p]
    {
      RunOrder(start, trace);
    }

    // -------------------------------------------------------------- is_empty

    method TestShadow() returns (isNull: bool)
      requires Valid() && (sys.consumer == Outside || sys.consumer == Ready)
      modifies this
      ensures start == old(start) && old(trace) <= trace
      ensures Valid() && Goes(old(sys), sys) && sys.consumer == if isNull then TestHead else Ready
    {
      isNull := shadowHead == REL_NULL;
      Step(Action.IsEmpty);
    }

    method TestHeadNull() returns (isNull: bool)
      requires Valid() && sys.consumer == TestHead
      modifies this
      ensures start == old(start) && old(trace) <= trace
      ensures Valid() && Goes(old(sys), sys) && sys.consumer == if isNull then Outside else CopyHead
      ensures |sys.dequeued| <= |sys.swapped| && (isNull <==> Q(sys) == [] || FrontPending(sys))
    {
      Reachable();
      NullHead(sys);
      isNull := head == REL_NULL;
      Step(Consume);
    }

    method CopyToShadow()
      requires Valid() && sys.consumer == CopyHead
      modifies this
      ensures start == old(start) && old(trace) <= trace
      ensures Valid() && Goes(old(sys), sys) && sys.consumer == ResetHead
    {
      shadowHead := head;
      Step(Consume);
    }

    method SetHeadNull()
      requires Valid() && sys.consumer == ResetHead
      modifies this
      ensures start == old(start) && old(trace) <= trace
      ensures Valid() && Goes(old(sys), sys) && sys.consumer == Ready
    {
      head := REL_NULL;
      Step(Consume);
    }

    /** Moves the front from head to shadowHead, in two steps between which producers may act. */
    method TransferHead(script: Script)
      requires Valid() && sys.consumer == CopyHead
      modifies this
      ensures start == old(start) && old(trace) <= trace
      ensures Valid() && Goes(old(sys), sys) && sys.consumer == Ready
    {
      Producers(Turn(script, 2));
      CopyToShadow();
      Producers(Turn(script, 3));
      SetHeadNull();
    }

    /** True: the queue is empty, or the front's producer has not stored head yet. False: the front is in shadowHead,
        and PeekHead and Dequeue may be called. */
    method IsEmpty(script: Script) returns (empty: bool)
      requires Valid() && (sys.consumer == Outside || sys.consumer == Ready)
      modifies this
      ensures start == old(start) && old(trace) <= trace
      ensures Valid() && Goes(old(sys), sys) && sys.consumer == if empty then Outside else Ready
      ensures |sys.dequeued| <= |sys.swapped|
      ensures if empty then Q(sys) == [] || FrontPending(sys) else Q(sys) != [] && shadowHead == Q(sys)[0]
    {
      empty := TestShadowAndHead(script);
      if !empty {
        FrontInShadow();
      }
    }

    lemma FrontInShadow()
      requires Valid() && sys.consumer == Ready
      ensures |sys.dequeued| <= |sys.swapped| && Q(sys) != [] && shadowHead == Q(sys)[0]
    {
      Reachable();
      ReadyFront(sys);
    }

    method TestShadowAndHead(script: Script) returns (empty: bool)
      requires Valid() && (sys.consumer == Outside || sys.consumer == Ready)
      modifies this
      ensures start == old(start) && old(trace) <= trace
      ensures Valid() && Goes(old(sys), sys) && sys.consumer == if empty then Outside else Ready
      ensures empty ==> |sys.dequeued| <= |sys.swapped| && (Q(sys) == [] || FrontPending(sys))
    {
      empty := false;
      Producers(Turn(script, 0));
      var isNull := TestShadow();
      if isNull {
        Producers(Turn(script, 1));
        isNull := TestHeadNull();
        if isNull {
          empty := true;
        } else {
          TransferHead(script);
        }
      }
    }

    /** After IsEmpty has returned false. */
    method PeekHead() returns (elt: Ref)
      requires Valid() && sys.consumer == Ready
      ensures elt == shadowHead && InOrder(sys) && Q(sys) != [] && elt == Q(sys)[0]
    {
      Reachable();
      FrontInShadow();
      return shadowHead;
    }

    // -------------------------------------------------------------- dequeue

    method LoadShadow() returns (e: Ref)
      requires Valid() && sys.consumer == Ready
      modifies this
      ensures start == old(start) && old(trace) <= trace
      ensures Valid() && Goes(old(sys), sys) && e == old(shadowHead) && sys.consumer == Loaded(e)
    {
      e := shadowHead;
      Step(Consume);
    }

    method TestNext(e: Ref) returns (linked: bool)
      requires Valid() && (sys.consumer == Loaded(e) || sys.consumer == Spinning(e))
      modifies this
      ensures start == old(start) && old(trace) <= trace
      ensures Valid() && Goes(old(sys), sys)
      ensures sys.consumer ==
              if linked then Advancing(e) else if old(sys.consumer).Loaded? then NullNext(e) else Spinning(e)
      ensures linked <==> Next(sys.mem, e) != REL_NULL
      ensures sys.mem == old(sys.mem) && (old(sys.consumer).Spinning? && !linked ==> sys == old(sys))
    {
      linked := e in next && next[e] != REL_NULL;
      Step(Consume);
    }

    method SetShadowNull(e: Ref)
      requires Valid() && sys.consumer == NullNext(e)
      modifies this
      ensures start == old(start) && old(trace) <= trace
      ensures Valid() && Goes(old(sys), sys) && sys.consumer == Closing(e)
    {
      shadowHead := REL_NULL;
      Step(Consume);
    }

    method CasTail(e: Ref) returns (won: bool)
      requires Valid() && sys.consumer == Closing(e)
      modifies this
      ensures start == old(start) && old(trace) <= trace
      ensures Valid() && Goes(old(sys), sys) && sys.consumer == if won then Unlinked(e) else Spinning(e)
    {
      var oldTail := tail;
      if oldTail == e {
        tail := REL_NULL;
      }
      Step(Consume);
      return oldTail == e;
    }

    method AdvanceShadow(e: Ref)
      requires Valid() && sys.consumer == Advancing(e)
      modifies this
      ensures start == old(start) && old(trace) <= trace
      ensures Valid() && Goes(old(sys), sys) && sys.consumer == Unlinked(e)
    {
      shadowHead := if e in next then next[e] else REL_NULL;
      Step(Consume);
    }

    method ClearAndReturn(script: Script, e: Ref)
      requires Valid() && sys.consumer == Unlinked(e)
      modifies this
      ensures start == old(start) && old(trace) <= trace
      ensures Valid() && old(sys.swapped) <= sys.swapped && sys.returned == old(sys.returned) + [e]
      ensures sys.consumer == Outside && e in sys.held
    {
      next := next[e := REL_NULL];
      Step(Consume);
      Producers(Turn(script, 6));
      Step(Consume);
    }

    /** The busy-wait loop, with one turn of the producers before each test but the first: it goes on until the
        element is linked or the turns are over. So it ends if the owing producer is asked to link in one of the
        turns. */
    method Spin(script: Script, e: Ref) returns (linked: bool)
      requires Valid() && sys.consumer == Spinning(e)
      modifies this
      ensures start == old(start) && old(trace) <= trace
      ensures Valid() && Goes(old(sys), sys) && sys.consumer == if linked then Advancing(e) else Spinning(e)
      ensures linked <==> Next(sys.mem, e) != REL_NULL
      ensures linked <==> FirstLinked(old(sys), script, 0, e) <= |script|
      ensures !linked ==> StillOwed(sys, e, script)
      ensures forall p, x :: Owes(old(sys), p, x, e) && !NeverAsked(script, p) ==> linked
    {
      ReachableInv();
      linked := TestUntilLinked(script, e);
      if !linked {
        NotLinked(old(sys), script, e);
      }
    }

    method TestUntilLinked(script: Script, e: Ref) returns (linked: bool)
      requires Valid() && sys.consumer == Spinning(e)
      modifies this
      ensures start == old(start) && old(trace) <= trace
      ensures Valid() && Goes(old(sys), sys) && sys.consumer == if linked then Advancing(e) else Spinning(e)
      ensures linked <==> Next(sys.mem, e) != REL_NULL
      ensures linked <==> FirstLinked(old(sys), script, 0, e) <= |script|
      ensures !linked ==> sys == AfterTurns(old(sys), script) && Next(old(sys).mem, e) == REL_NULL
    {
      linked := TestNext(e);
      var i := 0;
      while !linked && i < |script|
        invariant start == old(start) && old(trace) <= trace
        invariant Valid() && Goes(old(sys), sys) && sys.consumer == if linked then Advancing(e) else Spinning(e)
        invariant linked <==> Next(sys.mem, e) != REL_NULL
        invariant i <= |script| && (linked <==> LinkedAfter(old(sys), script, i, e))
        invariant !linked ==> sys == AfterTurns(old(sys), script[..i])
        invariant FirstLinked(old(sys), script, 0, e) == FirstLinked(old(sys), script, i, e)
      {
        AfterTurnsNext(old(sys), script, i);
        Producers(script[i]);
        linked := TestNext(e);
        i := i + 1;
      }
      assert script[..|script|] == script;
      assert LinkedAfter(old(sys), script, 0, e) <==> Next(old(sys).mem, e) != REL_NULL;
    }

    /** The element seemed to be the last one: try to close the queue, and wait for the link if that fails. */
    method CloseOrWait(script: Script, spins: Script, e: Ref) returns (won: bool, linked: bool)
      requires Valid() && sys.consumer == NullNext(e)
      modifies this
      ensures start == old(start) && old(trace) <= trace
      ensures Valid() && Goes(old(sys), sys)
      ensures sys.consumer == if won then Unlinked(e) else if linked then Advancing(e) else Spinning(e)
      ensures !won && !linked ==> Next(sys.mem, e) == REL_NULL && StillOwed(sys, e, spins)
    {
      SetShadowNull(e);
      Producers(Turn(script, 3));
      won := CasTail(e);
      linked := false;
      if !won {
        linked := Spin(spins, e);
      }
    }

    /** Gets the front out of the list. A false result: the script has ended in the busy-wait loop. */
    method Unlink(script: Script, spins: Script, e: Ref) returns (done: bool)
      requires Valid() && sys.consumer == Loaded(e)
      modifies this
      ensures start == old(start) && old(trace) <= trace
      ensures Valid() && Goes(old(sys), sys) && sys.consumer == if done then Unlinked(e) else Spinning(e)
      ensures !done ==> Next(sys.mem, e) == REL_NULL && StillOwed(sys, e, spins)
    {
      var linked := TestNext(e);
      var won := false;
      Producers(Turn(script, 2));
      if !linked {
        won, linked := CloseOrWait(script, spins, e);
      }
      if linked && !won {
        Producers(Turn(script, 4));
        AdvanceShadow(e);
      }
      return won || linked;
    }

    /** Takes out the front, the element that PeekHead names. The producers have a turn before each access,
        and `spins` before the tests of the busy-wait loop; no result means that the last of these tests has failed, and
        that the producer that owes the link has never been asked to store it. */
    method Dequeue(script: Script, spins: Script) returns (elt: Option<Ref>)
      requires Valid() && sys.consumer == Ready
      modifies this
      ensures start == old(start) && old(trace) <= trace
      ensures Valid()
      ensures |old(sys).dequeued| <= |old(sys).swapped| && Q(old(sys)) != [] && old(shadowHead) == Q(old(sys))[0]
      ensures old(sys.swapped) <= sys.swapped
      ensures elt.Some? ==>
                && elt.value == old(shadowHead)
                && sys.returned == old(sys.returned) + [elt.value] && sys.consumer == Outside
                && |sys.dequeued| <= |sys.swapped| && Isolated(sys, elt.value)
                && Q(old(sys))[1..] <= Q(sys)
      ensures elt.None? ==>
                && sys.consumer == Spinning(old(shadowHead)) && Next(sys.mem, old(shadowHead)) == REL_NULL
                && sys.returned == old(sys.returned) && StillOwed(sys, old(shadowHead), spins)
    {
      var e, done := UnlinkFront(script, spins);
      if !done {
        return None;
      }
      Producers(Turn(script, 5));
      ClearAndReturn(script, e);
      Returned(old(sys), e);
      return Some(e);
    }

    /** Up to where the front is out of the list. */
    method UnlinkFront(script: Script, spins: Script) returns (e: Ref, done: bool)
      requires Valid() && sys.consumer == Ready
      modifies this
      ensures start == old(start) && old(trace) <= trace
      ensures Valid() && Goes(old(sys), sys) && e == old(shadowHead)
      ensures LogsAgree(old(sys)) && Q(old(sys)) != [] && e == Q(old(sys))[0]
      ensures sys.consumer == if done then Unlinked(e) else Spinning(e)
      ensures !done ==> Next(sys.mem, e) == REL_NULL && StillOwed(sys, e, spins)
    {
      Reachable();
      FrontInShadow();
      Producers(Turn(script, 0));
      e := LoadShadow();
      Producers(Turn(script, 1));
      done := Unlink(script, spins, e);
    }

    /** The returned element is isolated, and the rest of the queue is where it was. */
    lemma Returned(was: State, e: Ref)
      requires Valid() && LogsAgree(was) && was.consumer == Ready && Q(was) != []
      requires sys.consumer == Outside && e in sys.held
      requires sys.returned == was.returned + [e] && was.swapped <= sys.swapped
      ensures |sys.dequeued| <= |sys.swapped| && Isolated(sys, e) && Q(was)[1..] <= Q(sys)
    {
      Reachable();
      ReturnedIsIsolated(sys, e);
      RestStays(was, sys, e);
    }
  }
}
