/**
 Any number of threads running the operations built on load-linked / store-conditional on one word.
 LL/SC may be weak: a store-conditional may fail, and a reservation may get lost, for no reason.
 */
module LlscLoops {
  import opened AtomicSpec
  import opened Options
  import opened Emulated

  datatype Thread =
    | Idle
    | AtLL(op: Op)                     // about to load-link; a plain load or store: about to do it
    | AtSC(op: Op, prev: Int32)        // has load-linked prev, about to store-conditional
    | AtReturn(op: Op, ret: Int32)

  datatype State = State(
    v: Int32,
    reserved: set<Tid>,
    threads: map<Tid, Thread>,
    log: seq<Effect>,
    invoked: map<Tid, seq<Op>>,
    returned: map<Tid, seq<(Op, Int32)>>
  )

  datatype Action =
    | Begin(t: Tid, op: Op)
    | Plain(t: Tid)                  // a plain load or store
    | LL(t: Tid)
    | SC(t: Tid, spurious: bool)
    | Lose(t: Tid)                   // the reservation gets lost
    | End(t: Tid)

  predicate Enabled(s: State, a: Action) {
    && a.t in s.threads && a.t in s.invoked && a.t in s.returned
    && match a
       case Begin(t, _) => s.threads[t].Idle?
       case Plain(t) => s.threads[t].AtLL? && !IsRmw(s.threads[t].op)
       case LL(t) => s.threads[t].AtLL? && IsRmw(s.threads[t].op)
       case SC(t, _) => s.threads[t].AtSC? && IsRmw(s.threads[t].op)
       case Lose(t) => t in s.reserved
       case End(t) => s.threads[t].AtReturn?
  }

  function DoPlain(s: State, t: Tid): State
    requires Enabled(s, Plain(t))
  {
    var op := s.threads[t].op;
    var ret := if op.Load? then s.v else 0;
    s.(v := if op.Store? then op.val else s.v,
       reserved := if op.Store? then {} else s.reserved,
       threads := s.threads[t := AtReturn(op, ret)],
       log := s.log + [Effect(t, op, ret)])
  }

  /** Reads and reserves; a compare-and-swap that reads something else is done. */
  function DoLL(s: State, t: Tid): State
    requires Enabled(s, LL(t))
  {
    var op := s.threads[t].op;
    if GivesUp(KernelOf(op), s.v) then
      s.(reserved := s.reserved + {t},
         threads := s.threads[t := AtReturn(op, FromPrev(op, s.v))],
         log := s.log + [Effect(t, op, FromPrev(op, s.v))])
    else
      s.(reserved := s.reserved + {t}, threads := s.threads[t := AtSC(op, s.v)])
  }

  /** Stores if the reservation still stands and nothing spurious happens, and ends every reservation;
      otherwise the loop starts over. */
  function DoSC(s: State, t: Tid, spurious: bool): State
    requires Enabled(s, SC(t, spurious))
  {
    var AtSC(op, prev) := s.threads[t];
    if t in s.reserved && !spurious then
      s.(v := Stored(KernelOf(op), prev),
         reserved := {},
         threads := s.threads[t := AtReturn(op, FromPrev(op, prev))],
         log := s.log + [Effect(t, op, FromPrev(op, prev))])
    else
      s.(reserved := s.reserved - {t}, threads := s.threads[t := AtLL(op)])
  }

  function Do(s: State, a: Action): State
    requires Enabled(s, a)
  {
    match a
    case Begin(t, op) => s.(threads := s.threads[t := AtLL(op)], invoked := s.invoked[t := s.invoked[t] + [op]])
    case Plain(t) => DoPlain(s, t)
    case LL(t) => DoLL(s, t)
    case SC(t, spurious) => DoSC(s, t, spurious)
    case Lose(t) => s.(reserved := s.reserved - {t})
    case End(t) =>
      var AtReturn(op, ret) := s.threads[t];
      s.(threads := s.threads[t := Idle], returned := s.returned[t := s.returned[t] + [(op, ret)]])
  }

  predicate IsRun(s: State, acts: seq<Action>)
    decreases acts
  {
    acts == [] || (Enabled(s, acts[0]) && IsRun(Do(s, acts[0]), acts[1..]))
  }

  function Exec(s: State, acts: seq<Action>): State
    requires IsRun(s, acts)
    decreases acts
  {
    if acts == [] then s else Exec(Do(s, acts[0]), acts[1..])
  }

  predicate Init(s: State) {
    && s.reserved == {} && s.log == []
    && s.threads.Keys == s.invoked.Keys == s.returned.Keys
    && forall t <- s.threads :: s.threads[t] == Idle && s.invoked[t] == [] && s.returned[t] == []
  }

  function CallOf(th: Thread): Call {
    match th
    case Idle => NoCall
    case AtLL(op) => Pending(op)
    case AtSC(op, _) => Pending(op)
    case AtReturn(op, ret) => Finished(op, ret)
  }

  function Abs(s: State): Atomic {
    Atomic(s.v, map t | t in s.threads :: CallOf(s.threads[t]), s.log, s.invoked, s.returned)
  }

  /** What a standing reservation means: nobody has stored since the load-link. */
  ghost predicate Inv(s: State) {
    && (forall t <- s.threads :: s.threads[t].AtSC? ==>
          IsRmw(s.threads[t].op) && !GivesUp(KernelOf(s.threads[t].op), s.threads[t].prev))
    && (forall t <- s.reserved :: t in s.threads && (s.threads[t].AtSC? ==> s.threads[t].prev == s.v))
  }

  /** Where a step takes effect in the atomic machine, if it does: at the store-conditional that succeeds,
      at the load-link of a compare-and-swap that mismatches, at a plain access. */
  function Matching(s: State, a: Action): Option<Event>
    requires Enabled(s, a)
  {
    match a
    case Begin(t, op) => Some(Invoke(t, op))
    case Plain(t) => Some(Take(t))
    case LL(t) => if GivesUp(KernelOf(s.threads[t].op), s.v) then Some(Take(t)) else None
    case SC(t, spurious) => if t in s.reserved && !spurious then Some(Take(t)) else None
    case Lose(_) => None
    case End(t) => Some(Return(t))
  }

  lemma StepRefines(s: State, a: Action)
    requires Inv(s) && Enabled(s, a)
    ensures Inv(Do(s, a))
    ensures AStep(Abs(s), Matching(s, a), Abs(Do(s, a)))
  {
    var s' := Do(s, a);
    if !s.threads[a.t].Idle? && IsRmw(s.threads[a.t].op) {
      KernelMeetsReference(s.threads[a.t].op, s.v);
    }
    assert Abs(s').calls == Abs(s).calls[a.t := CallOf(s'.threads[a.t])];
  }

  /** The events of the atomic machine that a run brings about, in order: one for each step that `Matching` names. */
  function Trace(s: State, acts: seq<Action>): seq<Event>
    requires IsRun(s, acts)
    decreases acts
  {
    if acts == [] then [] else Prepend(Matching(s, acts[0]), Trace(Do(s, acts[0]), acts[1..]))
  }

  lemma {:induction false} RunRefines(s: State, acts: seq<Action>)
    requires Inv(s) && IsRun(s, acts)
    ensures Inv(Exec(s, acts))
    ensures AIsRun(Abs(s), Trace(s, acts)) && AExec(Abs(s), Trace(s, acts)) == Abs(Exec(s, acts))
    decreases acts
  {
    if acts != [] {
      var s' := Do(s, acts[0]);
      StepRefines(s, acts[0]);
      RunRefines(s', acts[1..]);
      PrependRun(Abs(s), Matching(s, acts[0]), Abs(s'), Trace(s', acts[1..]));
    }
  }

  /** A run is its first i steps, and then the rest. */
  lemma {:induction false} Split(s: State, acts: seq<Action>, i: nat)
    requires IsRun(s, acts) && i <= |acts|
    ensures IsRun(s, acts[..i]) && IsRun(Exec(s, acts[..i]), acts[i..])
    ensures Exec(Exec(s, acts[..i]), acts[i..]) == Exec(s, acts)
    decreases acts
  {
    if i > 0 {
      assert acts[..i][1..] == acts[1..][..i - 1] && acts[1..][i - 1..] == acts[i..];
      Split(Do(s, acts[0]), acts[1..], i - 1);
    }
  }

  lemma InOrderOfTime(s0: State, acts: seq<Action>, i: nat)
    requires Init(s0) && IsRun(s0, acts) && i <= |acts|
    ensures Linearized(s0.v, Abs(Exec(s0, acts)))
    ensures IsRun(s0, acts[..i]) && RealTime(Abs(Exec(s0, acts[..i])), Abs(Exec(s0, acts)))
  {
    Split(s0, acts, i);
    var s := Exec(s0, acts[..i]);
    RunRefines(s0, acts[..i]);
    RunRefines(s, acts[i..]);
    InitLinearized(Abs(s0));
    LinearizedRun(s0.v, Abs(s0), Trace(s0, acts[..i]));
    LinearizedRun(s0.v, Abs(s), Trace(s, acts[i..]));
    RealTimeOrder(s0.v, Abs(s), Abs(Exec(s0, acts)));
  }

  /** Any mix of the operations, by any number of threads, over weak LL/SC: every call takes effect exactly once, in its
      thread's order and between its invocation and its return, and returns what the reference returns at that place. */
  lemma Linearizable(s0: State, acts: seq<Action>)
    requires Init(s0) && IsRun(s0, acts)
    ensures Linearized(s0.v, Abs(Exec(s0, acts)))
    ensures forall i :: 0 <= i <= |acts| ==>
              IsRun(s0, acts[..i]) && RealTime(Abs(Exec(s0, acts[..i])), Abs(Exec(s0, acts)))
  {
    forall i | 0 <= i <= |acts|
      ensures Linearized(s0.v, Abs(Exec(s0, acts)))
      ensures IsRun(s0, acts[..i]) && RealTime(Abs(Exec(s0, acts[..i])), Abs(Exec(s0, acts)))
    {
      InOrderOfTime(s0, acts, i);
    }
    InOrderOfTime(s0, acts, 0);
  }

  // ---------------------------------------------------------------- nothing that the reference allows is missing

  lemma {:induction false} ExecAppend(s: State, acts: seq<Action>, a: Action)
    requires IsRun(s, acts) && Enabled(Exec(s, acts), a)
    ensures IsRun(s, acts + [a]) && Exec(s, acts + [a]) == Do(Exec(s, acts), a)
    decreases acts
  {
    if acts == [] {
      assert ([] + [a])[1..] == [];
      assert Exec(s, [] + [a]) == Exec(Do(s, a), []);
    } else {
      assert (acts + [a])[1..] == acts[1..] + [a];
      ExecAppend(Do(s, acts[0]), acts[1..], a);
    }
  }

  lemma {:induction false} ExecConcat(s: State, acts: seq<Action>, more: seq<Action>)
    requires IsRun(s, acts) && IsRun(Exec(s, acts), more)
    ensures IsRun(s, acts + more) && Exec(s, acts + more) == Exec(Exec(s, acts), more)
    decreases acts
  {
    if acts == [] {
      assert acts + more == more;
    } else {
      assert (acts + more)[1..] == acts[1..] + more;
      ExecConcat(Do(s, acts[0]), acts[1..], more);
    }
  }

  /** A run, and one more step. */
  lemma Extend(s0: State, acts: seq<Action>, s: State, a: Action) returns (acts': seq<Action>, s': State)
    requires IsRun(s0, acts) && Exec(s0, acts) == s && Enabled(s, a)
    ensures s' == Do(s, a) && acts' == acts + [a] && IsRun(s0, acts') && Exec(s0, acts') == s'
  {
    ExecAppend(s0, acts, a);
    acts', s' := acts + [a], Do(s, a);
  }

  /** No thread stands between load-link and store-conditional. */
  ghost predicate Resting(s: State) {
    forall t <- s.threads :: !s.threads[t].AtSC?
  }

  /** A load-link followed at once by a store-conditional that does not fail for no reason brings a waiting call to its
      return, with the reference's effect and result. */
  lemma TakeEvent(s: State, t: Tid) returns (acts: seq<Action>)
    requires Resting(s) && AEnabled(Abs(s), Take(t))
    ensures IsRun(s, acts) && Resting(Exec(s, acts)) && Abs(Exec(s, acts)) == ADo(Abs(s), Take(t))
    ensures acts == [Plain(t)] || acts == [LL(t)] || acts == [LL(t), SC(t, false)]
  {
    var op, s' := s.threads[t].op, s;
    if !IsRmw(op) {
      acts, s' := Extend(s, [], s, Plain(t));
    } else {
      KernelMeetsReference(op, s.v);
      acts, s' := Extend(s, [], s, LL(t));
      if s'.threads[t].AtSC? {
        acts, s' := Extend(s, acts, s', SC(t, false));
      }
    }
    assert Abs(s').calls == Abs(s).calls[t := Finished(op, Result(op, s.v))];
  }

  lemma BeginEvent(s: State, t: Tid, op: Op) returns (acts: seq<Action>)
    requires Resting(s) && AEnabled(Abs(s), Invoke(t, op))
    ensures IsRun(s, acts) && Resting(Exec(s, acts)) && Abs(Exec(s, acts)) == ADo(Abs(s), Invoke(t, op))
  {
    var s';
    acts, s' := Extend(s, [], s, Begin(t, op));
    assert Abs(s').calls == Abs(s).calls[t := Pending(op)];
  }

  lemma EndEvent(s: State, t: Tid) returns (acts: seq<Action>)
    requires Resting(s) && AEnabled(Abs(s), Return(t))
    ensures IsRun(s, acts) && Resting(Exec(s, acts)) && Abs(Exec(s, acts)) == ADo(Abs(s), Return(t))
  {
    var s';
    acts, s' := Extend(s, [], s, End(t));
    assert Abs(s').calls == Abs(s).calls[t := NoCall];
  }

  lemma Event(s: State, ev: Event) returns (acts: seq<Action>)
    requires Resting(s) && AEnabled(Abs(s), ev)
    ensures IsRun(s, acts) && Resting(Exec(s, acts)) && Abs(Exec(s, acts)) == ADo(Abs(s), ev)
  {
    match ev
    case Invoke(t, op) => acts := BeginEvent(s, t, op);
    case Take(t) => acts := TakeEvent(s, t);
    case Return(t) => acts := EndEvent(s, t);
  }

  lemma {:induction false} Realize(s: State, evs: seq<Event>) returns (acts: seq<Action>)
    requires Resting(s) && AIsRun(Abs(s), evs)
    ensures IsRun(s, acts) && Abs(Exec(s, acts)) == AExec(Abs(s), evs)
    decreases evs
  {
    acts := [];
    if evs != [] {
      acts := Event(s, evs[0]);
      var more := Realize(Exec(s, acts), evs[1..]);
      ExecConcat(s, acts, more);
      acts := acts + more;
    }
  }

  /** Whatever one-step operations can do, with the same calls, results and history, some run of this machine does. */
  lemma Complete(s0: State, evs: seq<Event>) returns (acts: seq<Action>)
    requires Init(s0) && AIsRun(Abs(s0), evs)
    ensures IsRun(s0, acts) && Abs(Exec(s0, acts)) == AExec(Abs(s0), evs)
  {
    acts := Realize(s0, evs);
  }

  /** From every reachable state a thread that is in a call and runs alone finishes it: at once, or after one more
      round. */
  lemma FinishesAlone(s: State, t: Tid) returns (acts: seq<Action>)
    requires Inv(s) && t in s.threads && t in s.invoked && t in s.returned && (s.threads[t].AtLL? || s.threads[t].AtSC?)
    ensures IsRun(s, acts) && |acts| <= 3 && forall a <- acts :: a.t == t
    ensures var s', op := Exec(s, acts), s.threads[t].op;
            && s'.threads == s.threads[t := AtReturn(op, Result(op, s.v))] && s'.v == After(op, s.v)
            && s'.log == s.log + [Effect(t, op, Result(op, s.v))]
  {
    var s' := s;
    acts := [];
    if s.threads[t].AtSC? {
      KernelMeetsReference(s.threads[t].op, s.v);
      acts, s' := Extend(s, [], s, SC(t, false));
    }
    if s'.threads[t].AtLL? {
      acts, s' := RoundAlone(s, acts, s', t);
    }
  }

  lemma RoundAlone(s0: State, acts: seq<Action>, s: State, t: Tid) returns (acts': seq<Action>, s': State)
    requires IsRun(s0, acts) && Exec(s0, acts) == s
    requires t in s.threads && t in s.invoked && t in s.returned && s.threads[t].AtLL?
    ensures IsRun(s0, acts') && Exec(s0, acts') == s' && |acts'| <= |acts| + 2
    ensures forall a <- acts' :: a in acts || a.t == t
    ensures var op := s.threads[t].op;
            && s'.threads == s.threads[t := AtReturn(op, Result(op, s.v))] && s'.v == After(op, s.v)
            && s'.log == s.log + [Effect(t, op, Result(op, s.v))]
  {
    var op := s.threads[t].op;
    if !IsRmw(op) {
      acts', s' := Extend(s0, acts, s, Plain(t));
    } else {
      KernelMeetsReference(op, s.v);
      acts', s' := Extend(s0, acts, s, LL(t));
      if s'.threads[t].AtSC? {
        acts', s' := Extend(s0, acts', s', SC(t, false));
      }
    }
  }
}
