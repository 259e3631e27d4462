/**
 The lock-based operations as a thread runs them, statement by statement, while all other threads try to take steps
 between its accesses. `sys` is the system around the thread; the methods move it along and so show that their
 statements are the thread's steps in it.
 */
module LockThreads {
  import opened AtomicSpec
  import opened LockOps
  import opened Options

  predicate HasThread(s: State, t: Tid) {
    t in s.threads && t in s.invoked && t in s.returned
  }

  /** What t relies on while it is between two accesses; inside the critical section also that the word stays. */
  ghost predicate Around(s: State, s': State, t: Tid) {
    && HasThread(s, t) && HasThread(s', t)
    && s'.threads[t] == s.threads[t] && s'.invoked[t] == s.invoked[t] && s'.returned[t] == s.returned[t]
    && s.log <= s'.log && Own(s'.log, t) == Own(s.log, t)
    && (InSection(s.threads[t]) ==> s'.v == s.v)
  }

  lemma OthersAround(s: State, a: Action, t: Tid)
    requires Inv(s) && Enabled(s, a) && HasThread(s, t) && a.t != t
    ensures Around(s, Do(s, a), t)
  {
    if a.Access? && s.threads[a.t].AtWrite? {
      var AtWrite(op, prev, cur) := s.threads[a.t];
      OwnAppend(s.log, Effect(a.t, op, Returned(op, prev)), t);
    }
  }

  /** Since s0 the thread has invoked op, which has not taken effect. */
  ghost predicate Waiting(s0: State, s: State, t: Tid, op: Op) {
    && HasThread(s0, t) && HasThread(s, t)
    && s.invoked[t] == s0.invoked[t] + [op] && s.returned[t] == s0.returned[t]
    && s0.log <= s.log && Own(s.log, t) == Own(s0.log, t)
  }

  /** Since s0 the thread has invoked op, which has taken effect once, with the result ret. */
  ghost predicate Effective(s0: State, s: State, t: Tid, op: Op, ret: Int32) {
    && HasThread(s0, t) && HasThread(s, t)
    && s.invoked[t] == s0.invoked[t] + [op] && s.returned[t] == s0.returned[t]
    && s0.log <= s.log && Own(s.log, t) == Own(s0.log, t) + [(op, ret)]
  }

  /** Since s0 the thread has called op, which has taken effect once, and has got the result ret. */
  ghost predicate Called(s0: State, s: State, t: Tid, op: Op, ret: Int32) {
    && HasThread(s0, t) && HasThread(s, t)
    && s.threads[t] == Idle
    && s.invoked[t] == s0.invoked[t] + [op] && s.returned[t] == s0.returned[t] + [(op, ret)]
    && s0.log <= s.log && Own(s.log, t) == Own(s0.log, t) + [(op, ret)]
  }

  /** The outcome of a call since s0: it has taken effect exactly once and returned; or it still waits for the lock
      and has had no effect. */
  ghost predicate Outcome(s0: State, s: State, t: Tid, op: Op, ret: Option<Int32>) {
    if ret.Some? then Called(s0, s, t, op, ret.value)
    else Waiting(s0, s, t, op) && s.threads[t] == AtLock(op)
  }

  /** What the other threads try to do before each attempt to take the lock, before each access in the section,
      and between unlock and return. */
  datatype Turns = Turns(tries: seq<seq<Action>>, inside: seq<seq<Action>>, after: seq<Action>)

  function Turn(script: seq<seq<Action>>, i: nat): seq<Action> {
    if i < |script| then script[i] else []
  }

  /** Nobody is tried before the first attempt to take the lock, nor after the section; inside it, anybody may try. */
  predicate Undisturbed(turns: Turns) {
    turns.tries != [] && turns.tries[0] == [] && turns.after == []
  }

  /** The system after the others have taken those of the proposed steps that they can take. */
  function AfterTurn(s: State, turn: seq<Action>, t: Tid): State {
    if turn == [] then s
    else
      var before, a := AfterTurn(s, turn[..|turn| - 1], t), turn[|turn| - 1];
      if a.t != t && Enabled(before, a) then Do(before, a) else before
  }

  function AfterTurns(s: State, turns: seq<seq<Action>>, t: Tid): State {
    if turns == [] then s else AfterTurn(AfterTurns(s, turns[..|turns| - 1], t), turns[|turns| - 1], t)
  }

  lemma AfterTurnNext(s: State, turn: seq<Action>, i: nat, t: Tid)
    requires i < |turn|
    ensures var before := AfterTurn(s, turn[..i], t);
            AfterTurn(s, turn[..i + 1], t)
            == if turn[i].t != t && Enabled(before, turn[i]) then Do(before, turn[i]) else before
  {
    assert turn[..i + 1][..i] == turn[..i];
  }

  lemma AfterTurnsNext(s: State, turns: seq<seq<Action>>, i: nat, t: Tid)
    requires i < |turns|
    ensures AfterTurns(s, turns[..i + 1], t) == AfterTurn(AfterTurns(s, turns[..i], t), turns[i], t)
  {
    assert turns[..i + 1][..i] == turns[..i];
  }

  /** The lock is free after i + 1 turns of the others. */
  predicate FreeAfter(s: State, turns: seq<seq<Action>>, i: nat, t: Tid)
    requires i < |turns|
  {
    AfterTurns(s, turns[..i + 1], t).lock == None
  }

  /** The first turn of the others, from this one on, after which the lock is free; their number if there is none. */
  function FirstFree(s: State, turns: seq<seq<Action>>, from: nat, t: Tid): (n: nat)
    requires from <= |turns|
    ensures from <= n <= |turns| && (forall i :: from <= i < n ==> !FreeAfter(s, turns, i, t))
    ensures n < |turns| ==> FreeAfter(s, turns, n, t)
    decreases |turns| - from
  {
    if from == |turns| || FreeAfter(s, turns, from, t) then from else FirstFree(s, turns, from + 1, t)
  }

  /** A call from s gets the lock: it is free after one of the turns in which the others are tried before. */
  predicate GetsLock(s: State, t: Tid, op: Op, tries: seq<seq<Action>>)
    requires Enabled(s, Begin(t, op))
  {
    FirstFree(Do(s, Begin(t, op)), tries, 0, t) < |tries|
  }

  class SharedWord {
    var v: Int32
    var lock: Option<Tid>
    var sys: State
    ghost var start: State
    ghost var trace: seq<Action>

    ghost predicate Matches(s: State)
      reads this
    {
      s.v == v && s.lock == lock
    }

    /** The fields are the shared memory of the system, which a run has brought here from the initial state. */
    ghost predicate Valid()
      reads this
    {
      Matches(sys) && Init(start) && IsRun(start, trace) && Exec(start, trace) == sys
    }

    constructor (v: Int32, threads: set<Tid>)
      ensures Valid() && sys.threads.Keys == threads && this.v == v && lock == None && trace == []
    {
      this.v, lock := v, None;
      var s := State(v, None, map t | t in threads :: Idle, [], map t | t in threads :: [], map t | t in threads :: []);
      sys, start, trace := s, s, [];
    }

    /** The history up to now is linearizable, and the section belongs to one thread. */
    lemma Reachable()
      requires Valid()
      ensures Inv(sys) && Linearized(start.v, Abs(sys))
    {
      RunRefines(start, trace);
      InOrderOfTime(start, trace, 0);
    }

    /** The step has been made on the fields; this is the same step in the system. */
    method Step(a: Action)
      requires Enabled(sys, a) && Matches(Do(sys, a))
      requires Init(start) && IsRun(start, trace) && Exec(start, trace) == sys
      modifies this`sys, this`trace
      ensures Valid() && sys == Do(old(sys), a) && trace == old(trace) + [a]
    {
      ExecAppend(start, trace, a);
      trace := trace + [a];
      sys := Do(sys, a);
    }

    method OtherStep(a: Action, t: Tid)
      requires Valid() && HasThread(sys, t) && a.t != t && Enabled(sys, a)
      modifies this
      ensures Valid() && start == old(start) && trace == old(trace) + [a]
      ensures Around(old(sys), sys, t) && sys == Do(old(sys), a)
    {
      Reachable();
      OthersAround(sys, a, t);
      var s := Do(sys, a);
      v, lock := s.v, s.lock;
      Step(a);
    }

    /** The other threads take those of the proposed steps that they can take. */
    method Others(turn: seq<Action>, t: Tid)
      requires Valid() && HasThread(sys, t)
      modifies this
      ensures Valid() && start == old(start) && old(trace) <= trace
      ensures Around(old(sys), sys, t)
      ensures sys == AfterTurn(old(sys), turn, t)
    {
      for i := 0 to |turn|
        invariant Valid() && start == old(start) && old(trace) <= trace
        invariant Around(old(sys), sys, t) && sys == AfterTurn(old(sys), turn[..i], t)
      {
        AfterTurnNext(old(sys), turn, i, t);
        if turn[i].t != t && Enabled(sys, turn[i]) {
          OtherStep(turn[i], t);
        }
      }
      assert turn[..|turn|] == turn;
    }

    // -------------------------------------------------------------- lock and unlock

    method Invoke(t: Tid, op: Op)
      requires Valid() && HasThread(sys, t) && sys.threads[t] == Idle
      modifies this
      ensures Valid() && start == old(start) && old(trace) <= trace && v == old(v) && lock == old(lock)
      ensures Waiting(old(sys), sys, t, op) && sys.threads[t] == AtLock(op) && sys == Do(old(sys), Begin(t, op))
    {
      Step(Begin(t, op));
    }

    method TakeLock(t: Tid, op: Op, ghost s0: State)
      requires Valid() && Waiting(s0, sys, t, op) && sys.threads[t] == AtLock(op) && lock == None
      modifies this
      ensures Valid() && start == old(start) && old(trace) <= trace && v == old(v)
      ensures Waiting(s0, sys, t, op) && sys.threads[t] == AtRead(op)
    {
      lock := Some(t);
      Step(Lock(t));
    }

    /** Takes the lock as soon as it is free; gives up when the others have had their turns and it never was. */
    method Enter(t: Tid, op: Op, tries: seq<seq<Action>>, ghost s0: State) returns (entered: bool)
      requires Valid() && Waiting(s0, sys, t, op) && sys.threads[t] == AtLock(op)
      modifies this
      ensures Valid() && start == old(start) && old(trace) <= trace
      ensures Waiting(s0, sys, t, op) && sys.threads[t] == if entered then AtRead(op) else AtLock(op)
      ensures entered <==> FirstFree(old(sys), tries, 0, t) < |tries|
      ensures tries != [] && tries[0] == [] && old(lock) == None ==> entered && v == old(v)
    {
      for i := 0 to |tries|
        invariant Valid() && start == old(start) && old(trace) <= trace
        invariant Waiting(s0, sys, t, op) && sys.threads[t] == AtLock(op)
        invariant sys == AfterTurns(old(sys), tries[..i], t)
        invariant FirstFree(old(sys), tries, 0, t) == FirstFree(old(sys), tries, i, t)
        invariant i > 0 && tries[0] == [] ==> old(lock) != None
      {
        AfterTurnsNext(old(sys), tries, i, t);
        entered := TryEnter(t, op, tries[i], s0);
        if entered {
          return true;
        }
      }
      return false;
    }

    method TryEnter(t: Tid, op: Op, turn: seq<Action>, ghost s0: State) returns (entered: bool)
      requires Valid() && Waiting(s0, sys, t, op) && sys.threads[t] == AtLock(op)
      modifies this
      ensures Valid() && start == old(start) && old(trace) <= trace
      ensures Waiting(s0, sys, t, op) && sys.threads[t] == if entered then AtRead(op) else AtLock(op)
      ensures entered <==> AfterTurn(old(sys), turn, t).lock == None
      ensures !entered ==> sys == AfterTurn(old(sys), turn, t)
      ensures turn == [] ==> v == old(v)
    {
      Others(turn, t);
      entered := lock == None;
      if entered {
        TakeLock(t, op, s0);
      }
    }

    method InvokeAndEnter(t: Tid, op: Op, tries: seq<seq<Action>>) returns (entered: bool)
      requires Valid() && HasThread(sys, t) && sys.threads[t] == Idle
      modifies this
      ensures Valid() && start == old(start) && old(trace) <= trace
      ensures Waiting(old(sys), sys, t, op) && sys.threads[t] == if entered then AtRead(op) else AtLock(op)
      ensures entered <==> GetsLock(old(sys), t, op, tries)
      ensures tries != [] && tries[0] == [] && old(lock) == None ==> entered && v == old(v)
    {
      Invoke(t, op);
      entered := Enter(t, op, tries, old(sys));
    }

    method Exit(t: Tid, op: Op, ret: Int32, ghost s0: State)
      requires Valid() && Effective(s0, sys, t, op, ret) && sys.threads[t] == AtUnlock(op, ret)
      modifies this
      ensures Valid() && start == old(start) && old(trace) <= trace && v == old(v)
      ensures Effective(s0, sys, t, op, ret) && sys.threads[t] == AtReturn(op, ret) && lock == None
    {
      lock := None;
      Step(Unlock(t));
    }

    method Return(t: Tid, op: Op, ret: Int32, ghost s0: State)
      requires Valid() && Effective(s0, sys, t, op, ret) && sys.threads[t] == AtReturn(op, ret)
      modifies this
      ensures Valid() && start == old(start) && old(trace) <= trace && v == old(v)
      ensures Called(s0, sys, t, op, ret) && lock == old(lock)
    {
      Step(End(t));
    }

    lemma OutsideNotHolder(t: Tid)
      requires Valid() && t in sys.threads && !InSection(sys.threads[t])
      ensures lock != Some(t)
    {
      Reachable();
    }

    method ExitAndReturn(t: Tid, op: Op, ret: Int32, turns: Turns, ghost s0: State)
      requires Valid() && Effective(s0, sys, t, op, ret) && sys.threads[t] == AtUnlock(op, ret)
      modifies this
      ensures Valid() && start == old(start) && old(trace) <= trace
      ensures Called(s0, sys, t, op, ret) && lock != Some(t)
      ensures turns.after == [] ==> v == old(v) && lock == None
    {
      Others(Turn(turns.inside, 3), t);
      Exit(t, op, ret, s0);
      Others(turns.after, t);
      OutsideNotHolder(t);
      Return(t, op, ret, s0);
    }

    // -------------------------------------------------------------- inside the section

    /** The first read; the only one, unless the operation reads once more to modify. */
    method Read(t: Tid, op: Op, turn: seq<Action>, ghost s0: State) returns (x: Int32)
      requires Valid() && Waiting(s0, sys, t, op) && sys.threads[t] == AtRead(op)
      modifies this
      ensures Valid() && start == old(start) && old(trace) <= trace && v == old(v) == x
      ensures Waiting(s0, sys, t, op) && sys.threads[t] == if ReadsTwice(op) then AtReread(op, x) else AtWrite(op, x, x)
    {
      Others(turn, t);
      x := v;
      Step(Access(t));
    }

    method ReadAgain(t: Tid, op: Op, prev: Int32, turn: seq<Action>, ghost s0: State) returns (x: Int32)
      requires Valid() && Waiting(s0, sys, t, op) && sys.threads[t] == AtReread(op, prev)
      modifies this
      ensures Valid() && start == old(start) && old(trace) <= trace && v == old(v) == x
      ensures Waiting(s0, sys, t, op) && sys.threads[t] == AtWrite(op, prev, x)
    {
      Others(turn, t);
      x := v;
      Step(Access(t));
    }

    /** The write of x, or of nothing, if that is what the operation has to write. */
    method Write(t: Tid, op: Op, prev: Int32, x: Option<Int32>)
      requires Valid() && HasThread(sys, t) && sys.threads[t] == AtWrite(op, prev, v) && x == Written(op, v)
      modifies this
      ensures Valid() && start == old(start) && old(trace) <= trace
      ensures v == (if x.Some? then x.value else old(v)) && HasThread(sys, t)
      ensures sys.threads[t] == AtUnlock(op, Returned(op, prev))
      ensures sys.log == old(sys.log) + [Effect(t, op, Returned(op, prev))]
      ensures sys.invoked == old(sys.invoked) && sys.returned == old(sys.returned)
    {
      if x.Some? {
        v := x.value;
      }
      Step(Access(t));
    }

    /** The write after what the others try before; it makes the call effective. */
    method WriteBack(t: Tid, op: Op, prev: Int32, x: Option<Int32>, turn: seq<Action>, ghost s0: State)
      requires Valid() && Waiting(s0, sys, t, op) && sys.threads[t] == AtWrite(op, prev, v) && x == Written(op, v)
      modifies this
      ensures Valid() && start == old(start) && old(trace) <= trace
      ensures v == if x.Some? then x.value else old(v)
      ensures Effective(s0, sys, t, op, Returned(op, prev)) && sys.threads[t] == AtUnlock(op, Returned(op, prev))
    {
      Others(turn, t);
      OwnAppend(sys.log, Effect(t, op, Returned(op, prev)), t);
      Write(t, op, prev, x);
    }

    method WriteAndLeave(t: Tid, op: Op, prev: Int32, x: Option<Int32>, turns: Turns, ghost s0: State)
      requires Valid() && Waiting(s0, sys, t, op) && sys.threads[t] == AtWrite(op, prev, v) && x == Written(op, v)
      modifies this
      ensures Valid() && start == old(start) && old(trace) <= trace
      ensures Called(s0, sys, t, op, Returned(op, prev)) && lock != Some(t)
      ensures turns.after == [] ==> v == (if x.Some? then x.value else old(v)) && lock == None
    {
      WriteBack(t, op, prev, x, Turn(turns.inside, 2), s0);
      ExitAndReturn(t, op, Returned(op, prev), turns, s0);
    }

    // -------------------------------------------------------------- the operations

    method FetchAndAdd(t: Tid, val: Int32, turns: Turns) returns (r: Option<Int32>)
      requires Valid() && HasThread(sys, t) && sys.threads[t] == Idle
      modifies this
      ensures Valid() && start == old(start) && old(trace) <= trace
      ensures Outcome(old(sys), sys, t, FetchAdd(val), r)
      ensures r.Some? <==> GetsLock(old(sys), t, FetchAdd(val), turns.tries)
      ensures r.Some? ==> lock != Some(t)
      ensures Undisturbed(turns) && old(lock) == None ==> r == Some(old(v)) && v == Wrap(old(v) + val) && lock == None
    {
      var op := FetchAdd(val);
      var entered := InvokeAndEnter(t, op, turns.tries);
      if !entered {
        return None;
      }
      var prev := AddInside(t, val, turns, old(sys));
      return Some(prev);
    }

    /** The lock is free again after an undisturbed call, so that the next one gets it too. */
    method AddTwice(t: Tid, val: Int32, turns: Turns) returns (first: Int32, second: Int32)
      requires Valid() && HasThread(sys, t) && sys.threads[t] == Idle && lock == None && Undisturbed(turns)
      modifies this
      ensures Valid() && start == old(start) && old(trace) <= trace
      ensures first == old(v) && second == Wrap(old(v) + val) && v == Wrap(second + val) && lock == None
    {
      var r := FetchAndAdd(t, val, turns);
      first := r.value;
      r := FetchAndAdd(t, val, turns);
      second := r.value;
    }

    /** The value is read once to return it and once more to add to it. */
    method AddInside(t: Tid, val: Int32, turns: Turns, ghost s0: State) returns (prev: Int32)
      requires Valid() && Waiting(s0, sys, t, FetchAdd(val)) && sys.threads[t] == AtRead(FetchAdd(val))
      modifies this
      ensures Valid() && start == old(start) && old(trace) <= trace
      ensures Called(s0, sys, t, FetchAdd(val), prev) && prev == old(v) && lock != Some(t)
      ensures turns.after == [] ==> v == Wrap(old(v) + val) && lock == None
    {
      prev := Read(t, FetchAdd(val), Turn(turns.inside, 0), s0);
      var cur := ReadAgain(t, FetchAdd(val), prev, Turn(turns.inside, 1), s0);
      WriteAndLeave(t, FetchAdd(val), prev, Some(Wrap(cur + val)), turns, s0);
    }

    method DecrementAndTest(t: Tid, turns: Turns) returns (r: Option<bool>)
      requires Valid() && HasThread(sys, t) && sys.threads[t] == Idle
      modifies this
      ensures Valid() && start == old(start) && old(trace) <= trace
      ensures Outcome(old(sys), sys, t, DecrAndTest, if r.Some? then Some(if r.value then 1 else 0) else None)
      ensures r.Some? <==> GetsLock(old(sys), t, DecrAndTest, turns.tries)
      ensures r.Some? ==> lock != Some(t)
      ensures Undisturbed(turns) && old(lock) == None ==>
                r.Some? && v == Wrap(old(v) - 1) && r.value == (v == 0) && lock == None
    {
      var entered := InvokeAndEnter(t, DecrAndTest, turns.tries);
      if !entered {
        return None;
      }
      var cur := Read(t, DecrAndTest, Turn(turns.inside, 0), old(sys));
      var newVal := Wrap(cur as int - 1);
      WriteAndLeave(t, DecrAndTest, cur, Some(newVal), turns, old(sys));
      return Some(0 == newVal);
    }

    method CompareAndSwap(t: Tid, oldv: Int32, newv: Int32, turns: Turns) returns (r: Option<Int32>)
      requires Valid() && HasThread(sys, t) && sys.threads[t] == Idle
      modifies this
      ensures Valid() && start == old(start) && old(trace) <= trace
      ensures Outcome(old(sys), sys, t, Cas(oldv, newv), r)
      ensures r.Some? <==> GetsLock(old(sys), t, Cas(oldv, newv), turns.tries)
      ensures r.Some? ==> lock != Some(t)
      ensures Undisturbed(turns) && old(lock) == None ==>
                r == Some(old(v)) && v == (if old(v) == oldv then newv else old(v)) && lock == None
    {
      var op := Cas(oldv, newv);
      var entered := InvokeAndEnter(t, op, turns.tries);
      if !entered {
        return None;
      }
      var prev := Read(t, op, Turn(turns.inside, 0), old(sys));
      WriteAndLeave(t, op, prev, if prev == oldv then Some(newv) else None, turns, old(sys));
      return Some(prev);
    }

    method SwapWith(t: Tid, val: Int32, turns: Turns) returns (r: Option<Int32>)
      requires Valid() && HasThread(sys, t) && sys.threads[t] == Idle
      modifies this
      ensures Valid() && start == old(start) && old(trace) <= trace
      ensures Outcome(old(sys), sys, t, Swap(val), r)
      ensures r.Some? <==> GetsLock(old(sys), t, Swap(val), turns.tries)
      ensures r.Some? ==> lock != Some(t)
      ensures Undisturbed(turns) && old(lock) == None ==> r == Some(old(v)) && v == val && lock == None
    {
      var op := Swap(val);
      var entered := InvokeAndEnter(t, op, turns.tries);
      if !entered {
        return None;
      }
      var prev := Read(t, op, Turn(turns.inside, 0), old(sys));
      WriteAndLeave(t, op, prev, Some(val), turns, old(sys));
      return Some(prev);
    }
  }
}
