/**
 The push and the pop routine of the stack test as a thread runs them, statement by statement, while all other threads
 take steps between its accesses. `sys` is the system around the thread; the methods move it along and so show
 that their statements are the thread's steps in it.
 */
module StackThreads {
  import opened Options
  import opened LlscStack
  import opened StackPushers

  lemma {:induction false} ExecAppend(s: State, acts: seq<Action>, a: Action)
    requires IsRun(s, acts) && Enabled(Exec(s, acts), a)
    ensures IsRun(s, acts + [a]) && Exec(s, acts + [a]) == Do(Exec(s, acts), a)
    decreases acts
  {
    if acts == [] {
      assert ([] + [a])[1..] == [];
      assert Exec(s, [] + [a]) == Exec(Do(s, a), []);
    } else {
      assert (acts + [a])[1..] == acts[1..] + [a];
      ExecAppend(Do(s, acts[0]), acts[1..], a);
    }
  }

  /** What t relies on while it is between two accesses. */
  predicate Around(s: State, s': State, t: Tid) {
    && t in s.threads && t in s'.threads && s'.threads[t] == s.threads[t]
    && s'.mine == s.mine && s.log <= s'.log && s.onStack.Keys <= s'.onStack.Keys
  }

  lemma OthersAround(s: State, a: Action, t: Tid)
    requires Enabled(s, a) && t in s.threads && (a.t != t || a.Lose?)
    ensures Around(s, Do(s, a), t)
  {
    if a.Acquire? || a.LoadHead? || a.StoreNext? || a.CasHead? || a.StopPushing? {
      PushersAround(s, a, t);
    } else {
      PoppersAround(s, a, t);
    }
  }

  lemma PushersAround(s: State, a: Action, t: Tid)
    requires Enabled(s, a) && t in s.threads && a.t != t
    requires a.Acquire? || a.LoadHead? || a.StoreNext? || a.CasHead? || a.StopPushing?
    ensures Around(s, Do(s, a), t)
  {
  }

  lemma PoppersAround(s: State, a: Action, t: Tid)
    requires Enabled(s, a) && t in s.threads && (a.t != t || a.Lose?)
    requires !a.Acquire? && !a.LoadHead? && !a.StoreNext? && !a.CasHead? && !a.StopPushing?
    ensures Around(s, Do(s, a), t)
  {
  }

  /** The system after the others have taken those of the proposed steps that they can take; t's reservation may get
      lost. */
  function AfterTurn(s: State, turn: seq<Action>, t: Tid): State {
    if turn == [] then s
    else
      var before, a := AfterTurn(s, turn[..|turn| - 1], t), turn[|turn| - 1];
      if (a.t != t || a.Lose?) && Enabled(before, a) then Do(before, a) else before
  }

  /** After several turns. */
  function AfterTurns(s: State, turns: seq<seq<Action>>, t: Tid): State {
    if turns == [] then s else AfterTurn(AfterTurns(s, turns[..|turns| - 1], t), turns[|turns| - 1], t)
  }

  lemma AfterTurnNext(s: State, turn: seq<Action>, i: nat, t: Tid)
    requires i < |turn|
    ensures var before := AfterTurn(s, turn[..i], t);
            AfterTurn(s, turn[..i + 1], t)
            == if (turn[i].t != t || turn[i].Lose?) && Enabled(before, turn[i]) then Do(before, turn[i]) else before
  {
    assert turn[..i + 1][..i] == turn[..i];
  }

  lemma AfterTurnsNext(s: State, turns: seq<seq<Action>>, i: nat, t: Tid)
    requires i < |turns|
    ensures AfterTurns(s, turns[..i + 1], t) == AfterTurn(AfterTurns(s, turns[..i], t), turns[i], t)
  {
    assert turns[..i + 1][..i] == turns[..i];
  }

  predicate IsFree(s: State, obj: Obj) {
    obj in s.onStack && s.onStack[obj] == 0
  }

  /** The object is free after i + 1 turns of the others. */
  predicate FreeAfter(s: State, turns: seq<seq<Action>>, i: nat, t: Tid, obj: Obj)
    requires i < |turns|
  {
    IsFree(AfterTurns(s, turns[..i + 1], t), obj)
  }

  /** The first turn of the others, from this one on, after which the object is free; their number if there is none. */
  function FirstFree(s: State, turns: seq<seq<Action>>, from: nat, t: Tid, obj: Obj): (n: nat)
    requires from <= |turns|
    ensures from <= n <= |turns| && (forall i :: from <= i < n ==> !FreeAfter(s, turns, i, t, obj))
    ensures n < |turns| ==> FreeAfter(s, turns, n, t, obj)
    decreases |turns| - from
  {
    if from == |turns| || FreeAfter(s, turns, from, t, obj) then from else FirstFree(s, turns, from + 1, t, obj)
  }

  /** A step of t itself that is no successful push or pop. */
  predicate Moved(s: State, s': State, t: Tid) {
    t in s'.threads && s'.mine == s.mine && s'.log == s.log
  }

  /** The operation is the last of the history, all of which is one of a last-in-first-out stack:
      a push has put its object on top, a pop has taken the top. */
  ghost predicate Linearized(before: seq<StackOp>, after: seq<StackOp>, op: StackOp) {
    && after != [] && before <= after[..|after| - 1] && after[|after| - 1] == op
    && Replay(after[..|after| - 1]).Chain? && Replay(after).Chain?
    && var was, now := Replay(after[..|after| - 1]).objs, Replay(after).objs;
       match op
       case Pushed(o) => now == [o] + was
       case Taken(o) => was == [o] + now
  }

  lemma TopOf(log: seq<StackOp>, op: StackOp)
    requires Replay(log + [op]).Chain?
    ensures forall before: seq<StackOp> :: before <= log ==> Linearized(before, log + [op], op)
  {
    ReplayAppend(log, op);
    assert (log + [op])[..|log|] == log;
  }

  /** What the other threads try to do before each access of a round of the push loop. */
  datatype Turn = Turn(beforeLoad: seq<Action>, beforeStore: seq<Action>, beforeCas: seq<Action>)

  class SharedStack {
    var head: Obj
    var next: map<Obj, Obj>
    var onStack: map<Obj, int>
    var npushers: int
    var sys: State
    ghost var start: State
    ghost var trace: seq<Action>

    ghost predicate Matches(s: State)
      reads this
    {
      s.head == head && s.next == next && s.onStack == onStack && s.npushers == npushers
    }

    /** The fields are the shared memory of the system, which a run has brought here from the initial state. */
    ghost predicate Valid()
      reads this
    {
      Matches(sys) && Init(start) && IsRun(start, trace) && Exec(start, trace) == sys
    }

    constructor (s: State)
      requires Init(s)
      ensures Valid() && sys == s && trace == []
    {
      head, next, onStack, npushers := s.head, s.next, s.onStack, s.npushers;
      sys, start, trace := s, s, [];
    }

    lemma Reachable()
      requires Valid()
      ensures Inv(sys)
    {
      InitInv(start);
      RunInv(start, trace);
    }

    /** The step has been made on the fields; this is the same step in the system. */
    method Step(a: Action)
      requires Enabled(sys, a) && Matches(Do(sys, a))
      requires Init(start) && IsRun(start, trace) && Exec(start, trace) == sys
      modifies this`sys, this`trace
      ensures Valid() && sys == Do(old(sys), a) && trace == old(trace) + [a]
    {
      ExecAppend(start, trace, a);
      trace := trace + [a];
      sys := Do(sys, a);
    }

    method OtherStep(a: Action, t: Tid)
      requires Valid() && t in sys.threads && (a.t != t || a.Lose?) && Enabled(sys, a)
      modifies this
      ensures start == old(start) && old(trace) <= trace
      ensures Valid() && Around(old(sys), sys, t) && sys == Do(old(sys), a)
    {
      OthersAround(sys, a, t);
      var s := Do(sys, a);
      head, next, onStack, npushers := s.head, s.next, s.onStack, s.npushers;
      Step(a);
    }

    /** The other threads take those of the proposed steps that they can take; t's reservation may get lost. */
    method Others(turn: seq<Action>, t: Tid)
      requires Valid() && t in sys.threads
      modifies this
      ensures start == old(start) && old(trace) <= trace
      ensures Valid() && Around(old(sys), sys, t)
      ensures sys == AfterTurn(old(sys), turn, t)
    {
      for i := 0 to |turn|
        invariant start == old(start) && old(trace) <= trace
        invariant Valid() && Around(old(sys), sys, t) && sys == AfterTurn(old(sys), turn[..i], t)
      {
        AfterTurnNext(old(sys), turn, i, t);
        if (turn[i].t != t || turn[i].Lose?) && Enabled(sys, turn[i]) {
          OtherStep(turn[i], t);
        }
      }
      assert turn[..|turn|] == turn;
    }

    /** The CAS of on_stack from 0 to 1, after a turn of the others. */
    method TryAcquire(t: Tid, turn: seq<Action>) returns (acquired: bool)
      requires Valid() && t in sys.threads && sys.threads[t] == PushIdle && t in sys.mine && sys.mine[t] in onStack
      modifies this
      ensures start == old(start) && old(trace) <= trace
      ensures Valid() && t in sys.threads && sys.threads[t] == (if acquired then Acquired else PushIdle)
      ensures sys.mine == old(sys.mine) && old(sys.log) <= sys.log && old(sys).onStack.Keys <= onStack.Keys
      ensures acquired ==> sys.mine[t] in sys.place && sys.place[sys.mine[t]] == WithPusher(t)
      ensures acquired <==> IsFree(AfterTurn(old(sys), turn, t), sys.mine[t])
      ensures !acquired ==> sys == AfterTurn(old(sys), turn, t)
    {
      var obj := sys.mine[t];
      Others(turn, t);
      var was := onStack[obj];
      if was == 0 {
        onStack := onStack[obj := 1];
      }
      Step(Acquire(t));
      return was == 0;
    }

    /** Tries to set on_stack of the thread's object, once per turn of the others, and gives up when they have had
        their turns, if the object has not been free after any of them. */
    method AcquireObject(t: Tid, turns: seq<seq<Action>>) returns (acquired: bool)
      requires Valid() && t in sys.threads && sys.threads[t] == PushIdle && t in sys.mine && sys.mine[t] in onStack
      modifies this
      ensures start == old(start) && old(trace) <= trace
      ensures Valid() && t in sys.threads && sys.threads[t] == (if acquired then Acquired else PushIdle)
      ensures sys.mine == old(sys.mine) && old(sys.log) <= sys.log
      ensures acquired ==> sys.mine[t] in sys.place && sys.place[sys.mine[t]] == WithPusher(t)
      ensures acquired <==> FirstFree(old(sys), turns, 0, t, sys.mine[t]) < |turns|
    {
      for j := 0 to |turns|
        invariant start == old(start) && old(trace) <= trace
        invariant Valid() && t in sys.threads && sys.threads[t] == PushIdle && sys.mine == old(sys.mine)
        invariant old(sys.log) <= sys.log && sys.mine[t] in onStack && sys == AfterTurns(old(sys), turns[..j], t)
        invariant FirstFree(old(sys), turns, 0, t, sys.mine[t]) == FirstFree(old(sys), turns, j, t, sys.mine[t])
      {
        AfterTurnsNext(old(sys), turns, j, t);
        acquired := TryAcquire(t, turns[j]);
        if acquired {
          return true;
        }
      }
      return false;
    }

    // -------------------------------------------------------------- push

    method LoadHeadValue(t: Tid) returns (tmp: Obj)
      requires Valid() && t in sys.threads && sys.threads[t] == Acquired
      modifies this
      ensures start == old(start) && old(trace) <= trace
      ensures Valid() && Moved(old(sys), sys, t) && sys.threads[t] == LoadedHead(tmp) && tmp == head == old(head)
    {
      tmp := head;
      Step(LoadHead(t));
    }

    method StoreNextOf(t: Tid, obj: Obj, tmp: Obj)
      requires Valid() && t in sys.threads && sys.threads[t] == LoadedHead(tmp) && t in sys.mine && sys.mine[t] == obj
      modifies this
      ensures start == old(start) && old(trace) <= trace
      ensures Valid() && Moved(old(sys), sys, t) && sys.threads[t] == StoredNext(tmp) && head == old(head)
    {
      next := next[obj := tmp];
      Step(StoreNext(t));
    }

    method CompareAndSwapHead(t: Tid, tmp: Obj, obj: Obj) returns (prev: Obj)
      requires Valid() && t in sys.threads && sys.threads[t] == StoredNext(tmp) && t in sys.mine && sys.mine[t] == obj
      modifies this
      ensures start == old(start) && old(trace) <= trace
      ensures Valid() && t in sys.threads && sys.mine == old(sys.mine)
      ensures prev == old(head)
      ensures prev == tmp ==> sys.threads[t] == PushIdle && head == obj && sys.log == old(sys.log) + [Pushed(obj)]
      ensures prev != tmp ==> sys.threads[t] == Acquired && sys.log == old(sys.log)
    {
      prev := head;
      if prev == tmp {
        head := obj;
      }
      Step(CasHead(t));
    }

    /** The first half of a round of the push loop: next of the object is the head that has been loaded. */
    method PrepareNext(t: Tid, turn: Turn) returns (tmp: Obj)
      requires Valid() && t in sys.threads && sys.threads[t] == Acquired && t in sys.mine
      modifies this
      ensures start == old(start) && old(trace) <= trace
      ensures Valid() && t in sys.threads && sys.mine == old(sys.mine)
      ensures sys.threads[t] == StoredNext(tmp) && old(sys.log) <= sys.log
      ensures turn.beforeStore == turn.beforeCas == [] ==> tmp == head
    {
      Others(turn.beforeLoad, t);
      tmp := LoadHeadValue(t);
      Others(turn.beforeStore, t);
      StoreNextOf(t, sys.mine[t], tmp);
      Others(turn.beforeCas, t);
    }

    method SwingHead(t: Tid, tmp: Obj) returns (pushed: bool)
      requires Valid() && t in sys.threads && sys.threads[t] == StoredNext(tmp) && t in sys.mine
      modifies this
      ensures start == old(start) && old(trace) <= trace
      ensures Valid() && t in sys.threads && sys.mine == old(sys.mine)
      ensures pushed <==> old(head) == tmp
      ensures !pushed ==> sys.threads[t] == Acquired && sys.log == old(sys.log)
      ensures pushed ==> sys.threads[t] == PushIdle && head == sys.mine[t]
      ensures pushed ==> forall before: seq<StackOp> ::
                           before <= old(sys.log) ==> Linearized(before, sys.log, Pushed(sys.mine[t]))
    {
      var prev := CompareAndSwapHead(t, tmp, sys.mine[t]);
      pushed := prev == tmp;
      if pushed {
        Reachable();
        TopOf(old(sys.log), Pushed(sys.mine[t]));
      }
    }

    /** Loads head, stores it in next, and tries to swing head; again, until the CAS succeeds or the turns of the
        others end. On success the object is the top of the stack. */
    method PushObject(t: Tid, turns: seq<Turn>) returns (pushed: bool)
      requires Valid() && t in sys.threads && sys.threads[t] == Acquired && t in sys.mine
      modifies this
      ensures start == old(start) && old(trace) <= trace
      ensures Valid() && t in sys.threads && sys.mine == old(sys.mine)
      ensures !pushed ==> sys.threads[t] == Acquired && old(sys.log) <= sys.log
      ensures pushed ==> sys.threads[t] == PushIdle && head == sys.mine[t]
      ensures pushed ==> Linearized(old(sys.log), sys.log, Pushed(sys.mine[t]))
      ensures (exists j :: 0 <= j < |turns| && turns[j].beforeStore == turns[j].beforeCas == []) ==> pushed
    {
      for j := 0 to |turns|
        invariant start == old(start) && old(trace) <= trace
        invariant Valid() && t in sys.threads && sys.mine == old(sys.mine)
        invariant sys.threads[t] == Acquired && old(sys.log) <= sys.log
        invariant forall i :: 0 <= i < j ==> !(turns[i].beforeStore == turns[i].beforeCas == [])
      {
        var tmp := PrepareNext(t, turns[j]);
        pushed := SwingHead(t, tmp);
        if pushed {
          return true;
        }
      }
      return false;
    }

    // -------------------------------------------------------------- pop

    method LoadLinkHead(t: Tid) returns (obj: Obj)
      requires Valid() && t in sys.threads && sys.threads[t] == PopIdle
      modifies this
      ensures start == old(start) && old(trace) <= trace
      ensures Valid() && Moved(old(sys), sys, t)
      ensures sys.threads[t] == if obj == NO_OBJ then PopCheck else LinkedHead(obj)
      ensures obj == old(head) && t in sys.reserved
    {
      obj := head;
      Step(LinkHead(t));
    }

    method LoadNextOf(t: Tid, obj: Obj) returns (tmp: Obj)
      requires Valid() && t in sys.threads && sys.threads[t] == LinkedHead(obj)
      modifies this
      ensures start == old(start) && old(trace) <= trace
      ensures Valid() && Moved(old(sys), sys, t) && sys.threads[t] == LoadedNext(obj, tmp)
      ensures sys.reserved == old(sys.reserved)
    {
      Reachable();
      tmp := next[obj];
      Step(LoadNext(t));
    }

    method StoreConditionalHead(t: Tid, obj: Obj, tmp: Obj, spurious: bool) returns (ok: bool)
      requires Valid() && t in sys.threads && sys.threads[t] == LoadedNext(obj, tmp)
      modifies this
      ensures start == old(start) && old(trace) <= trace
      ensures Valid() && t in sys.threads
      ensures ok <==> t in old(sys.reserved) && !spurious
      ensures ok ==> head == tmp && sys.threads[t] == Popped(obj) && sys.log == old(sys.log) + [Taken(obj)]
      ensures !ok ==> sys.threads[t] == PopCheck && sys.log == old(sys.log)
    {
      ok := t in sys.reserved && !spurious;
      if ok {
        head := tmp;
      }
      Step(ScHead(t, spurious));
    }

    /** Load-links head, loads the next of what it has read, and tries to store that as the new head.
        On success the object was the top of the stack at that moment. */
    method PopObject(t: Tid, between: seq<Action>, before: seq<Action>, spurious: bool) returns (r: Option<Obj>)
      requires Valid() && t in sys.threads && sys.threads[t] == PopIdle
      modifies this
      ensures start == old(start) && old(trace) <= trace
      ensures Valid() && t in sys.threads
      ensures r.None? ==> sys.threads[t] == PopCheck && old(sys.log) <= sys.log
      ensures r.Some? ==> sys.threads[t] == Popped(r.value) && r.value == old(head)
      ensures r.Some? ==> Linearized(old(sys.log), sys.log, Taken(r.value))
      ensures between == before == [] && !spurious ==> r == if old(head) == NO_OBJ then None else Some(old(head))
    {
      var obj := LoadLinkHead(t);
      if obj == NO_OBJ {
        return None;
      }
      Others(between, t);
      var tmp := LoadNextOf(t, obj);
      Others(before, t);
      ghost var log := sys.log;
      var ok := StoreConditionalHead(t, obj, tmp, spurious);
      if !ok {
        return None;
      }
      Reachable();
      TopOf(log, Taken(obj));
      return Some(obj);
    }

    method CheckOnStack(t: Tid, obj: Obj) returns (wasOnStack: bool)
      requires Valid() && t in sys.threads && sys.threads[t] == Popped(obj)
      modifies this
      ensures start == old(start) && old(trace) <= trace
      ensures wasOnStack
      ensures Valid() && Moved(old(sys), sys, t) && sys.threads[t] == CheckedPop(obj)
    {
      Reachable();
      assert Holding(sys, t);
      wasOnStack := onStack[obj] != 0;
      Step(CheckObject(t));
      Reachable();
    }

    method ClearOnStack(t: Tid, obj: Obj)
      requires Valid() && t in sys.threads && sys.threads[t] == CheckedPop(obj)
      modifies this
      ensures start == old(start) && old(trace) <= trace
      ensures Valid() && Moved(old(sys), sys, t) && sys.threads[t] == PopCheck
      ensures obj in onStack && onStack[obj] == 0 && obj in sys.place && sys.place[obj] == Free
    {
      onStack := onStack[obj := 0];
      Step(ReleaseObject(t));
    }

    /** The test at the end of a round of the pop loop: another round exactly if some pusher is not done. */
    method PushersLeft(t: Tid) returns (left: bool)
      requires Valid() && t in sys.threads && sys.threads[t] == PopCheck
      modifies this
      ensures start == old(start) && old(trace) <= trace
      ensures Valid() && Moved(old(sys), sys, t) && sys.threads[t] == if left then PopIdle else PopDone
      ensures left <==> !AllPushed(start, sys)
    {
      PoppersOutlast(start, trace);
      left := npushers != 0;
      Step(CheckPushers(t));
      PoppersOutlast(start, trace);
    }

    /** The end of the push routine. */
    method StopPush(t: Tid)
      requires Valid() && t in sys.threads && sys.threads[t] == PushIdle
      modifies this
      ensures start == old(start) && old(trace) <= trace
      ensures Valid() && Moved(old(sys), sys, t) && sys.threads[t] == PushDone
      ensures Pushers(sys) == Pushers(old(sys)) - {t}
    {
      PushersShrink(sys, StopPushing(t));
      npushers := npushers - 1;
      Step(StopPushing(t));
    }

    /** Checks on_stack of a popped object, which is always found set, and clears it. */
    method CheckAndRelease(t: Tid, obj: Obj, between: seq<Action>) returns (wasOnStack: bool)
      requires Valid() && t in sys.threads && sys.threads[t] == Popped(obj)
      modifies this
      ensures start == old(start) && old(trace) <= trace
      ensures wasOnStack
      ensures Valid() && t in sys.threads && sys.threads[t] == PopCheck && old(sys.log) <= sys.log
      ensures obj in onStack && onStack[obj] == 0 && obj in sys.place && sys.place[obj] == Free
    {
      wasOnStack := CheckOnStack(t, obj);
      Others(between, t);
      ClearOnStack(t, obj);
    }
  }
}
