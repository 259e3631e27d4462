/**
 The lock-based primitives with lock, read, second read, write and unlock as separate steps of any number of threads.
 The mutex is free or held by one thread.
 */
module LockOps {
  import opened AtomicSpec
  import opened Options

  datatype Thread =
    | Idle
    | AtLock(op: Op)                                // about to take the lock
    | AtRead(op: Op)                                // holds the lock
    | AtReread(op: Op, prev: Int32)                 // fetch-and-modify: has read the value to return
    | AtWrite(op: Op, prev: Int32, cur: Int32)      // has read the value to modify or compare
    | AtUnlock(op: Op, ret: Int32)
    | AtReturn(op: Op, ret: Int32)

  datatype State = State(
    v: Int32,
    lock: Option<Tid>,
    threads: map<Tid, Thread>,
    log: seq<Effect>,
    invoked: map<Tid, seq<Op>>,
    returned: map<Tid, seq<(Op, Int32)>>
  )

  datatype Action =
    | Begin(t: Tid, op: Op)
    | Lock(t: Tid)
    | Access(t: Tid)       // the next access to the word inside the critical section
    | Unlock(t: Tid)
    | End(t: Tid)

  predicate InSection(th: Thread) {
    th.AtRead? || th.AtReread? || th.AtWrite? || th.AtUnlock?
  }

  predicate Enabled(s: State, a: Action) {
    && a.t in s.threads && a.t in s.invoked && a.t in s.returned
    && match a
       case Begin(t, _) => s.threads[t].Idle?
       case Lock(t) => s.threads[t].AtLock? && s.lock == None
       case Access(t) => s.threads[t].AtRead? || s.threads[t].AtReread? || s.threads[t].AtWrite?
       case Unlock(t) => s.threads[t].AtUnlock?
       case End(t) => s.threads[t].AtReturn?
  }

  /** Fetch-and-modify reads the word once for the result and once more to modify it. */
  predicate ReadsTwice(op: Op) {
    op.FetchAdd? || op.FetchIncr? || op.FetchDecr?
  }

  /** What the critical section writes when it has read cur; a compare that fails writes nothing. */
  function Written(op: Op, cur: Int32): Option<Int32> {
    match op
    case Load => None
    case Store(x) => Some(x)
    case Add(x) => Some(Wrap(cur + x))
    case Incr => Some(Wrap(cur + 1))
    case Decr => Some(Wrap(cur - 1))
    case DecrAndTest => Some(Wrap(cur - 1))
    case FetchAdd(x) => Some(Wrap(cur + x))
    case FetchIncr => Some(Wrap(cur + 1))
    case FetchDecr => Some(Wrap(cur - 1))
    case Cas(o, n) => if cur == o then Some(n) else None
    case Swap(x) => Some(x)
  }

  /** What is returned, from the first value read. */
  function Returned(op: Op, prev: Int32): Int32 {
    match op
    case Store(_) => 0
    case Add(_) => 0
    case Incr => 0
    case Decr => 0
    case DecrAndTest => if Wrap(prev - 1) == 0 then 1 else 0
    case _ => prev
  }

  function DoAccess(s: State, t: Tid): State
    requires Enabled(s, Access(t))
  {
    match s.threads[t]
    case AtRead(op) =>
      s.(threads := s.threads[t := if ReadsTwice(op) then AtReread(op, s.v) else AtWrite(op, s.v, s.v)])
    case AtReread(op, prev) =>
      s.(threads := s.threads[t := AtWrite(op, prev, s.v)])
    case AtWrite(op, prev, cur) =>
      s.(v := if Written(op, cur).Some? then Written(op, cur).value else s.v,
         threads := s.threads[t := AtUnlock(op, Returned(op, prev))],
         log := s.log + [Effect(t, op, Returned(op, prev))])
  }

  function Do(s: State, a: Action): State
    requires Enabled(s, a)
  {
    match a
    case Begin(t, op) => s.(threads := s.threads[t := AtLock(op)], invoked := s.invoked[t := s.invoked[t] + [op]])
    case Lock(t) => s.(lock := Some(t), threads := s.threads[t := AtRead(s.threads[t].op)])
    case Access(t) => DoAccess(s, t)
    case Unlock(t) => s.(lock := None, threads := s.threads[t := AtReturn(s.threads[t].op, s.threads[t].ret)])
    case End(t) =>
      var AtReturn(op, ret) := s.threads[t];
      s.(threads := s.threads[t := Idle], returned := s.returned[t := s.returned[t] + [(op, ret)]])
  }

  predicate IsRun(s: State, acts: seq<Action>)
    decreases acts
  {
    acts == [] || (Enabled(s, acts[0]) && IsRun(Do(s, acts[0]), acts[1..]))
  }

  function Exec(s: State, acts: seq<Action>): State
    requires IsRun(s, acts)
    decreases acts
  {
    if acts == [] then s else Exec(Do(s, acts[0]), acts[1..])
  }

  predicate Init(s: State) {
    && s.lock == None && s.log == []
    && s.threads.Keys == s.invoked.Keys == s.returned.Keys
    && forall t <- s.threads :: s.threads[t] == Idle && s.invoked[t] == [] && s.returned[t] == []
  }

  /** The lock is held by exactly the thread that is in the critical section, and the word is what it has read there. */
  ghost predicate Inv(s: State) {
    && (forall t <- s.threads ::
          && (InSection(s.threads[t]) ==> s.lock == Some(t))
          && (s.threads[t].AtReread? ==> s.threads[t].prev == s.v)
          && (s.threads[t].AtWrite? ==> s.threads[t].prev == s.threads[t].cur == s.v))
    && (s.lock.Some? ==> s.lock.value in s.threads && InSection(s.threads[s.lock.value]))
  }

  function CallOf(th: Thread): Call {
    match th
    case Idle => NoCall
    case AtLock(op) => Pending(op)
    case AtRead(op) => Pending(op)
    case AtReread(op, _) => Pending(op)
    case AtWrite(op, _, _) => Pending(op)
    case AtUnlock(op, ret) => Finished(op, ret)
    case AtReturn(op, ret) => Finished(op, ret)
  }

  function Abs(s: State): Atomic {
    Atomic(s.v, map t | t in s.threads :: CallOf(s.threads[t]), s.log, s.invoked, s.returned)
  }

  function Matching(s: State, a: Action): Option<Event>
    requires Enabled(s, a)
  {
    match a
    case Begin(t, op) => Some(Invoke(t, op))
    case Lock(_) => None
    case Access(t) => if s.threads[t].AtWrite? then Some(Take(t)) else None
    case Unlock(_) => None
    case End(t) => Some(Return(t))
  }

  lemma StepRefines(s: State, a: Action)
    requires Inv(s) && Enabled(s, a)
    ensures Inv(Do(s, a))
    ensures AStep(Abs(s), Matching(s, a), Abs(Do(s, a)))
  {
    var s' := Do(s, a);
    assert Abs(s').calls == Abs(s).calls[a.t := CallOf(s'.threads[a.t])];
  }

  /** The events of the atomic machine that a run brings about, in order: one for each step that `Matching` names. */
  function Trace(s: State, acts: seq<Action>): seq<Event>
    requires IsRun(s, acts)
    decreases acts
  {
    if acts == [] then [] else Prepend(Matching(s, acts[0]), Trace(Do(s, acts[0]), acts[1..]))
  }

  lemma {:induction false} RunRefines(s: State, acts: seq<Action>)
    requires Inv(s) && IsRun(s, acts)
    ensures Inv(Exec(s, acts))
    ensures AIsRun(Abs(s), Trace(s, acts)) && AExec(Abs(s), Trace(s, acts)) == Abs(Exec(s, acts))
    decreases acts
  {
    if acts != [] {
      var s' := Do(s, acts[0]);
      StepRefines(s, acts[0]);
      RunRefines(s', acts[1..]);
      PrependRun(Abs(s), Matching(s, acts[0]), Abs(s'), Trace(s', acts[1..]));
    }
  }

  /** A run is its first i steps, and then the rest. */
  lemma {:induction false} Split(s: State, acts: seq<Action>, i: nat)
    requires IsRun(s, acts) && i <= |acts|
    ensures IsRun(s, acts[..i]) && IsRun(Exec(s, acts[..i]), acts[i..])
    ensures Exec(Exec(s, acts[..i]), acts[i..]) == Exec(s, acts)
    decreases acts
  {
    if i > 0 {
      assert acts[..i][1..] == acts[1..][..i - 1] && acts[1..][i - 1..] == acts[i..];
      Split(Do(s, acts[0]), acts[1..], i - 1);
    }
  }

  lemma InOrderOfTime(s0: State, acts: seq<Action>, i: nat)
    requires Init(s0) && IsRun(s0, acts) && i <= |acts|
    ensures Linearized(s0.v, Abs(Exec(s0, acts)))
    ensures IsRun(s0, acts[..i]) && RealTime(Abs(Exec(s0, acts[..i])), Abs(Exec(s0, acts)))
  {
    Split(s0, acts, i);
    var s := Exec(s0, acts[..i]);
    RunRefines(s0, acts[..i]);
    RunRefines(s, acts[i..]);
    InitLinearized(Abs(s0));
    LinearizedRun(s0.v, Abs(s0), Trace(s0, acts[..i]));
    LinearizedRun(s0.v, Abs(s), Trace(s, acts[i..]));
    RealTimeOrder(s0.v, Abs(s), Abs(Exec(s0, acts)));
  }

  /** Any mix of the operations, by any number of threads, under the lock: every call takes effect exactly once, between
      its invocation and its return, and returns what the reference returns at that place. */
  lemma Linearizable(s0: State, acts: seq<Action>)
    requires Init(s0) && IsRun(s0, acts)
    ensures Linearized(s0.v, Abs(Exec(s0, acts)))
    ensures forall i :: 0 <= i <= |acts| ==>
              IsRun(s0, acts[..i]) && RealTime(Abs(Exec(s0, acts[..i])), Abs(Exec(s0, acts)))
  {
    forall i | 0 <= i <= |acts|
      ensures Linearized(s0.v, Abs(Exec(s0, acts)))
      ensures IsRun(s0, acts[..i]) && RealTime(Abs(Exec(s0, acts[..i])), Abs(Exec(s0, acts)))
    {
      InOrderOfTime(s0, acts, i);
    }
    InOrderOfTime(s0, acts, 0);
  }

  // ---------------------------------------------------------------- nothing that the reference allows is missing

  lemma {:induction false} ExecAppend(s: State, acts: seq<Action>, a: Action)
    requires IsRun(s, acts) && Enabled(Exec(s, acts), a)
    ensures IsRun(s, acts + [a]) && Exec(s, acts + [a]) == Do(Exec(s, acts), a)
    decreases acts
  {
    if acts == [] {
      assert ([] + [a])[1..] == [];
      assert Exec(s, [] + [a]) == Exec(Do(s, a), []);
    } else {
      assert (acts + [a])[1..] == acts[1..] + [a];
      ExecAppend(Do(s, acts[0]), acts[1..], a);
    }
  }

  lemma {:induction false} ExecConcat(s: State, acts: seq<Action>, more: seq<Action>)
    requires IsRun(s, acts) && IsRun(Exec(s, acts), more)
    ensures IsRun(s, acts + more) && Exec(s, acts + more) == Exec(Exec(s, acts), more)
    decreases acts
  {
    if acts == [] {
      assert acts + more == more;
    } else {
      assert (acts + more)[1..] == acts[1..] + more;
      ExecConcat(Do(s, acts[0]), acts[1..], more);
    }
  }

  /** A run, and one more step. */
  lemma Extend(s0: State, acts: seq<Action>, s: State, a: Action) returns (acts': seq<Action>, s': State)
    requires IsRun(s0, acts) && Exec(s0, acts) == s && Enabled(s, a)
    ensures s' == Do(s, a) && acts' == acts + [a] && IsRun(s0, acts') && Exec(s0, acts') == s'
  {
    ExecAppend(s0, acts, a);
    acts', s' := acts + [a], Do(s, a);
  }

  /** No thread is in the critical section, and the lock is free. */
  ghost predicate Resting(s: State) {
    s.lock == None && forall t <- s.threads :: !InSection(s.threads[t])
  }

  /** The first half of a critical section. */
  lemma LockAndRead(s: State, t: Tid) returns (acts: seq<Action>, s': State)
    requires Resting(s) && AEnabled(Abs(s), Take(t))
    ensures IsRun(s, acts) && Exec(s, acts) == s'
    ensures s' == s.(lock := Some(t), threads := s.threads[t := AtWrite(s.threads[t].op, s.v, s.v)])
  {
    var op := s.threads[t].op;
    acts, s' := Extend(s, [], s, Lock(t));
    acts, s' := Extend(s, acts, s', Access(t));
    if ReadsTwice(op) {
      acts, s' := Extend(s, acts, s', Access(t));
    }
    assert s'.threads == s.threads[t := AtWrite(op, s.v, s.v)];
  }

  /** A critical section that nobody interrupts brings a waiting call to its return, with the reference's effect and
      result, and leaves the lock free. */
  lemma TakeEvent(s: State, t: Tid) returns (acts: seq<Action>)
    requires Resting(s) && AEnabled(Abs(s), Take(t))
    ensures IsRun(s, acts) && Resting(Exec(s, acts)) && Abs(Exec(s, acts)) == ADo(Abs(s), Take(t))
  {
    var op, s' := s.threads[t].op, s;
    acts, s' := LockAndRead(s, t);
    acts, s' := Extend(s, acts, s', Access(t));
    acts, s' := Extend(s, acts, s', Unlock(t));
    assert Abs(s').calls == Abs(s).calls[t := Finished(op, Result(op, s.v))];
  }

  lemma BeginEvent(s: State, t: Tid, op: Op) returns (acts: seq<Action>)
    requires Resting(s) && AEnabled(Abs(s), Invoke(t, op))
    ensures IsRun(s, acts) && Resting(Exec(s, acts)) && Abs(Exec(s, acts)) == ADo(Abs(s), Invoke(t, op))
  {
    var s';
    acts, s' := Extend(s, [], s, Begin(t, op));
    assert Abs(s').calls == Abs(s).calls[t := Pending(op)];
  }

  lemma EndEvent(s: State, t: Tid) returns (acts: seq<Action>)
    requires Resting(s) && AEnabled(Abs(s), Return(t))
    ensures IsRun(s, acts) && Resting(Exec(s, acts)) && Abs(Exec(s, acts)) == ADo(Abs(s), Return(t))
  {
    var s';
    acts, s' := Extend(s, [], s, End(t));
    assert Abs(s').calls == Abs(s).calls[t := NoCall];
  }

  lemma Event(s: State, ev: Event) returns (acts: seq<Action>)
    requires Resting(s) && AEnabled(Abs(s), ev)
    ensures IsRun(s, acts) && Resting(Exec(s, acts)) && Abs(Exec(s, acts)) == ADo(Abs(s), ev)
  {
    match ev
    case Invoke(t, op) => acts := BeginEvent(s, t, op);
    case Take(t) => acts := TakeEvent(s, t);
    case Return(t) => acts := EndEvent(s, t);
  }

  lemma {:induction false} Realize(s: State, evs: seq<Event>) returns (acts: seq<Action>)
    requires Resting(s) && AIsRun(Abs(s), evs)
    ensures IsRun(s, acts) && Abs(Exec(s, acts)) == AExec(Abs(s), evs)
    decreases evs
  {
    acts := [];
    if evs != [] {
      acts := Event(s, evs[0]);
      var more := Realize(Exec(s, acts), evs[1..]);
      ExecConcat(s, acts, more);
      acts := acts + more;
    }
  }

  /** Whatever one-step operations can do, with the same calls, results and history, some run of this machine does. */
  lemma Complete(s0: State, evs: seq<Event>) returns (acts: seq<Action>)
    requires Init(s0) && AIsRun(Abs(s0), evs)
    ensures IsRun(s0, acts) && Abs(Exec(s0, acts)) == AExec(Abs(s0), evs)
  {
    acts := Realize(s0, evs);
  }

  /** From every reachable state the thread that is in the critical section leaves it alone, and then the lock is
      free. */
  lemma SectionEnds(s: State, t: Tid) returns (acts: seq<Action>)
    requires Inv(s) && t in s.threads && t in s.invoked && t in s.returned && InSection(s.threads[t])
    ensures IsRun(s, acts) && |acts| <= 4 && forall a <- acts :: a.t == t
    ensures Resting(Exec(s, acts)) && t in Exec(s, acts).threads && Exec(s, acts).threads[t].AtReturn?
  {
    var s' := s;
    acts := [];
    if s'.threads[t].AtRead? {
      acts, s' := Extend(s, acts, s', Access(t));
    }
    if s'.threads[t].AtReread? {
      acts, s' := Extend(s, acts, s', Access(t));
    }
    if s'.threads[t].AtWrite? {
      acts, s' := Extend(s, acts, s', Access(t));
    }
    acts, s' := Extend(s, acts, s', Unlock(t));
  }
}
