/**
 Fetch-and-add and swap built as loops over compare-and-swap, and everything that is a thin call onto them,
 next to plain accesses and compare-and-swaps, by any number of threads on one word.
 */
module CasLoops {
  import opened AtomicSpec
  import opened Options
  import opened Emulated
  import opened Sums

  datatype Thread =
    | Idle
    | AtStart(op: Op)                  // about to do its first access
    | AtCas(op: Op, cmp: Int32)        // in the loop, about to CAS from cmp
    | AtReturn(op: Op, ret: Int32)

  /** `fails` counts the failed CAS attempts of each thread, `writes` each thread's writes that changed the word,
      `allWrites` those of all threads. */
  datatype State = State(
    v: Int32,
    threads: map<Tid, Thread>,
    log: seq<Effect>,
    invoked: map<Tid, seq<Op>>,
    returned: map<Tid, seq<(Op, Int32)>>,
    fails: map<Tid, nat>,
    writes: map<Tid, nat>,
    allWrites: nat
  )

  datatype Action =
    | Begin(t: Tid, op: Op)
    | OneStep(t: Tid)                // a plain access, or a compare-and-swap called by the program
    | FirstLoad(t: Tid)              // the load before the loop
    | TryCas(t: Tid)                 // the loop's CAS
    | End(t: Tid)

  predicate Loops(op: Op) {
    IsRmw(op) && !op.Cas?
  }

  predicate Enabled(s: State, a: Action) {
    && a.t in s.threads && a.t in s.invoked && a.t in s.returned && a.t in s.fails && a.t in s.writes
    && match a
       case Begin(t, _) => s.threads[t].Idle?
       case OneStep(t) => s.threads[t].AtStart? && !Loops(s.threads[t].op)
       case FirstLoad(t) => s.threads[t].AtStart? && Loops(s.threads[t].op)
       case TryCas(t) => s.threads[t].AtCas? && Loops(s.threads[t].op)
       case End(t) => s.threads[t].AtReturn?
  }

  /** The state with x stored by t. */
  function Put(s: State, t: Tid, x: Int32): State
    requires t in s.writes
  {
    var n := if x == s.v then 0 else 1;
    s.(v := x, writes := s.writes[t := s.writes[t] + n], allWrites := s.allWrites + n)
  }

  function DoTryCas(s: State, t: Tid): State
    requires Enabled(s, TryCas(t))
  {
    var AtCas(op, cmp) := s.threads[t];
    if s.v == cmp then
      Put(s, t, Stored(KernelOf(op), cmp)).(
        threads := s.threads[t := AtReturn(op, FromPrev(op, cmp))],
        log := s.log + [Effect(t, op, FromPrev(op, cmp))])
    else
      s.(threads := s.threads[t := AtCas(op, s.v)], fails := s.fails[t := s.fails[t] + 1])
  }

  function Do(s: State, a: Action): State
    requires Enabled(s, a)
  {
    match a
    case Begin(t, op) => s.(threads := s.threads[t := AtStart(op)], invoked := s.invoked[t := s.invoked[t] + [op]])
    case OneStep(t) =>
      var op := s.threads[t].op;
      Put(s, t, After(op, s.v)).(
        threads := s.threads[t := AtReturn(op, Result(op, s.v))],
        log := s.log + [Effect(t, op, Result(op, s.v))])
    case FirstLoad(t) => s.(threads := s.threads[t := AtCas(s.threads[t].op, s.v)])
    case TryCas(t) => DoTryCas(s, t)
    case End(t) =>
      var AtReturn(op, ret) := s.threads[t];
      s.(threads := s.threads[t := Idle], returned := s.returned[t := s.returned[t] + [(op, ret)]])
  }

  predicate IsRun(s: State, acts: seq<Action>)
    decreases acts
  {
    acts == [] || (Enabled(s, acts[0]) && IsRun(Do(s, acts[0]), acts[1..]))
  }

  function Exec(s: State, acts: seq<Action>): State
    requires IsRun(s, acts)
    decreases acts
  {
    if acts == [] then s else Exec(Do(s, acts[0]), acts[1..])
  }

  predicate Init(s: State) {
    && s.log == [] && s.allWrites == 0
    && s.threads.Keys == s.invoked.Keys == s.returned.Keys == s.fails.Keys == s.writes.Keys
    && forall t <- s.threads ::
         && s.threads[t] == Idle && s.invoked[t] == [] && s.returned[t] == []
         && s.fails[t] == 0 && s.writes[t] == 0
  }

  function CallOf(th: Thread): Call {
    match th
    case Idle => NoCall
    case AtStart(op) => Pending(op)
    case AtCas(op, _) => Pending(op)
    case AtReturn(op, ret) => Finished(op, ret)
  }

  function Abs(s: State): Atomic {
    Atomic(s.v, map t | t in s.threads :: CallOf(s.threads[t]), s.log, s.invoked, s.returned)
  }

  function Matching(s: State, a: Action): Option<Event>
    requires Enabled(s, a)
  {
    match a
    case Begin(t, op) => Some(Invoke(t, op))
    case OneStep(t) => Some(Take(t))
    case FirstLoad(_) => None
    case TryCas(t) => if s.v == s.threads[t].cmp then Some(Take(t)) else None
    case End(t) => Some(Return(t))
  }

  /** A CAS that finds its old value is the whole operation, even if the word has changed and changed back in
      between. */
  lemma StepRefines(s: State, a: Action)
    requires Enabled(s, a)
    ensures AStep(Abs(s), Matching(s, a), Abs(Do(s, a)))
  {
    var s' := Do(s, a);
    if !s.threads[a.t].Idle? && IsRmw(s.threads[a.t].op) {
      KernelMeetsReference(s.threads[a.t].op, s.v);
    }
    assert Abs(s').calls == Abs(s).calls[a.t := CallOf(s'.threads[a.t])];
  }

  /** The events of the atomic machine that a run brings about, in order: one for each step that `Matching` names. */
  function Trace(s: State, acts: seq<Action>): seq<Event>
    requires IsRun(s, acts)
    decreases acts
  {
    if acts == [] then [] else Prepend(Matching(s, acts[0]), Trace(Do(s, acts[0]), acts[1..]))
  }

  lemma {:induction false} RunRefines(s: State, acts: seq<Action>)
    requires IsRun(s, acts)
    ensures AIsRun(Abs(s), Trace(s, acts)) && AExec(Abs(s), Trace(s, acts)) == Abs(Exec(s, acts))
    decreases acts
  {
    if acts != [] {
      var s' := Do(s, acts[0]);
      StepRefines(s, acts[0]);
      RunRefines(s', acts[1..]);
      PrependRun(Abs(s), Matching(s, acts[0]), Abs(s'), Trace(s', acts[1..]));
    }
  }

  /** A run is its first i steps, and then the rest. */
  lemma {:induction false} Split(s: State, acts: seq<Action>, i: nat)
    requires IsRun(s, acts) && i <= |acts|
    ensures IsRun(s, acts[..i]) && IsRun(Exec(s, acts[..i]), acts[i..])
    ensures Exec(Exec(s, acts[..i]), acts[i..]) == Exec(s, acts)
    decreases acts
  {
    if i > 0 {
      assert acts[..i][1..] == acts[1..][..i - 1] && acts[1..][i - 1..] == acts[i..];
      Split(Do(s, acts[0]), acts[1..], i - 1);
    }
  }

  lemma InOrderOfTime(s0: State, acts: seq<Action>, i: nat)
    requires Init(s0) && IsRun(s0, acts) && i <= |acts|
    ensures Linearized(s0.v, Abs(Exec(s0, acts)))
    ensures IsRun(s0, acts[..i]) && RealTime(Abs(Exec(s0, acts[..i])), Abs(Exec(s0, acts)))
  {
    Split(s0, acts, i);
    var s := Exec(s0, acts[..i]);
    RunRefines(s0, acts[..i]);
    RunRefines(s, acts[i..]);
    InitLinearized(Abs(s0));
    LinearizedRun(s0.v, Abs(s0), Trace(s0, acts[..i]));
    LinearizedRun(s0.v, Abs(s), Trace(s, acts[i..]));
    RealTimeOrder(s0.v, Abs(s), Abs(Exec(s0, acts)));
  }

  /** Any mix of the operations, by any number of threads, over CAS: every call takes effect exactly once, between its
      invocation and its return, and returns what the reference returns at that place, despite ABA. */
  lemma Linearizable(s0: State, acts: seq<Action>)
    requires Init(s0) && IsRun(s0, acts)
    ensures Linearized(s0.v, Abs(Exec(s0, acts)))
    ensures forall i :: 0 <= i <= |acts| ==>
              IsRun(s0, acts[..i]) && RealTime(Abs(Exec(s0, acts[..i])), Abs(Exec(s0, acts)))
  {
    forall i | 0 <= i <= |acts|
      ensures Linearized(s0.v, Abs(Exec(s0, acts)))
      ensures IsRun(s0, acts[..i]) && RealTime(Abs(Exec(s0, acts[..i])), Abs(Exec(s0, acts)))
    {
      InOrderOfTime(s0, acts, i);
    }
    InOrderOfTime(s0, acts, 0);
  }

  // ---------------------------------------------------------------- progress

  /** The attempts of t that have failed, and the one that is bound to fail, are paid for by writes of others. */
  ghost predicate PaidFor(s: State, t: Tid) {
    && t in s.threads && t in s.fails && t in s.writes
    && s.fails[t] + (if s.threads[t].AtCas? && s.threads[t].cmp != s.v then 1 else 0) + s.writes[t] <= s.allWrites
  }

  lemma StepPaid(s: State, a: Action, t: Tid)
    requires Enabled(s, a) && PaidFor(s, t)
    ensures PaidFor(Do(s, a), t)
  {
  }

  /** In every run the failed CAS attempts of a thread stay paid for. */
  lemma {:induction false} RunPaid(s: State, acts: seq<Action>, t: Tid)
    requires PaidFor(s, t) && IsRun(s, acts)
    ensures PaidFor(Exec(s, acts), t)
    decreases acts
  {
    if acts != [] {
      StepPaid(s, acts[0], t);
      RunPaid(Do(s, acts[0]), acts[1..], t);
    }
  }

  function WritesOf(s: State): nat -> int {
    (u: nat) => if u in s.writes then s.writes[u] else 0
  }

  /** The writes of all threads but t. */
  function WritesOfOthers(s: State, t: Tid): nat -> int {
    (u: nat) => if u in s.writes && u != t then s.writes[u] else 0
  }

  ghost predicate Counted(s: State, n: nat) {
    (forall u: nat :: u in s.writes <==> u < n) && s.allWrites == SumUpTo(n, WritesOf(s))
  }

  lemma StepCounted(s: State, a: Action, n: nat)
    requires Enabled(s, a) && Counted(s, n)
    ensures Counted(Do(s, a), n)
  {
    var s' := Do(s, a);
    SumChange(n, WritesOf(s), WritesOf(s'), a.t, s'.allWrites - s.allWrites);
  }

  lemma {:induction false} RunCounted(s: State, acts: seq<Action>, n: nat)
    requires Counted(s, n) && IsRun(s, acts)
    ensures Counted(Exec(s, acts), n)
    decreases acts
  {
    if acts != [] {
      StepCounted(s, acts[0], n);
      RunCounted(Do(s, acts[0]), acts[1..], n);
    }
  }

  /** How often a CAS of t's loop does not find in the word what it expects. */
  function FailedAttempts(s: State, acts: seq<Action>, t: Tid): nat
    requires IsRun(s, acts)
    decreases acts
  {
    if acts == [] then 0
    else
      (if acts[0] == TryCas(t) && s.v != s.threads[t].cmp then 1 else 0) + FailedAttempts(Do(s, acts[0]), acts[1..], t)
  }

  /** How often a step of t changes the value of the word. */
  function Changes(s: State, acts: seq<Action>, t: Tid): nat
    requires IsRun(s, acts)
    decreases acts
  {
    if acts == [] then 0
    else (if acts[0].t == t && Do(s, acts[0]).v != s.v then 1 else 0) + Changes(Do(s, acts[0]), acts[1..], t)
  }

  lemma StepCounts(s: State, a: Action, t: Tid)
    requires Enabled(s, a) && t in s.fails && t in s.writes
    ensures var s' := Do(s, a);
            && t in s'.fails && t in s'.writes
            && s'.fails[t] == s.fails[t] + (if a == TryCas(t) && s.v != s.threads[t].cmp then 1 else 0)
            && s'.writes[t] == s.writes[t] + if a.t == t && s'.v != s.v then 1 else 0
  {
  }

  lemma {:induction false} RunCounts(s: State, acts: seq<Action>, t: Tid)
    requires IsRun(s, acts) && t in s.fails && t in s.writes
    ensures var s' := Exec(s, acts);
            && t in s'.fails && t in s'.writes
            && s'.fails[t] == s.fails[t] + FailedAttempts(s, acts, t)
            && s'.writes[t] == s.writes[t] + Changes(s, acts, t)
    decreases acts
  {
    if acts != [] {
      StepCounts(s, acts[0], t);
      RunCounts(Do(s, acts[0]), acts[1..], t);
    }
  }

  /** What the threads other than t change. */
  function ChangesOfOthers(s: State, acts: seq<Action>, t: Tid): nat -> int
    requires IsRun(s, acts)
  {
    (u: nat) requires IsRun(s, acts) => if u != t then Changes(s, acts, u) else 0
  }

  lemma OthersCounted(s0: State, acts: seq<Action>, n: nat, t: Tid)
    requires Init(s0) && (forall u: nat :: u in s0.threads <==> u < n) && IsRun(s0, acts) && t < n
    ensures SumUpTo(n, WritesOfOthers(Exec(s0, acts), t)) == SumUpTo(n, ChangesOfOthers(s0, acts, t))
  {
    forall u: nat | u < n
      ensures WritesOfOthers(Exec(s0, acts), t)(u) == ChangesOfOthers(s0, acts, t)(u)
    {
      RunCounts(s0, acts, u);
    }
    SumSame(n, ChangesOfOthers(s0, acts, t), WritesOfOthers(Exec(s0, acts), t));
  }

  /** In every run of the threads 0 .. n-1 the failed CAS attempts of a thread are at most the steps of the other
      threads that change the value, so the threads together make progress whenever one of them has to retry. */
  lemma FailsBounded(s0: State, acts: seq<Action>, n: nat, t: Tid)
    requires Init(s0) && (forall u: nat :: u in s0.threads <==> u < n) && IsRun(s0, acts) && t < n
    ensures FailedAttempts(s0, acts, t) <= SumUpTo(n, ChangesOfOthers(s0, acts, t))
  {
    SumZero(n, WritesOf(s0));
    RunPaid(s0, acts, t);
    RunCounted(s0, acts, n);
    var s := Exec(s0, acts);
    SumChange(n, WritesOfOthers(s, t), WritesOf(s), t, s.writes[t]);
    RunCounts(s0, acts, t);
    OthersCounted(s0, acts, n, t);
  }

  // ---------------------------------------------------------------- nothing that the reference allows is missing

  lemma {:induction false} ExecAppend(s: State, acts: seq<Action>, a: Action)
    requires IsRun(s, acts) && Enabled(Exec(s, acts), a)
    ensures IsRun(s, acts + [a]) && Exec(s, acts + [a]) == Do(Exec(s, acts), a)
    decreases acts
  {
    if acts == [] {
      assert ([] + [a])[1..] == [];
      assert Exec(s, [] + [a]) == Exec(Do(s, a), []);
    } else {
      assert (acts + [a])[1..] == acts[1..] + [a];
      ExecAppend(Do(s, acts[0]), acts[1..], a);
    }
  }

  lemma {:induction false} ExecConcat(s: State, acts: seq<Action>, more: seq<Action>)
    requires IsRun(s, acts) && IsRun(Exec(s, acts), more)
    ensures IsRun(s, acts + more) && Exec(s, acts + more) == Exec(Exec(s, acts), more)
    decreases acts
  {
    if acts == [] {
      assert acts + more == more;
    } else {
      assert (acts + more)[1..] == acts[1..] + more;
      ExecConcat(Do(s, acts[0]), acts[1..], more);
    }
  }

  /** A run, and one more step. */
  lemma Extend(s0: State, acts: seq<Action>, s: State, a: Action) returns (acts': seq<Action>, s': State)
    requires IsRun(s0, acts) && Exec(s0, acts) == s && Enabled(s, a)
    ensures s' == Do(s, a) && acts' == acts + [a] && IsRun(s0, acts') && Exec(s0, acts') == s'
  {
    ExecAppend(s0, acts, a);
    acts', s' := acts + [a], Do(s, a);
  }

  /** No thread stands in a loop. */
  ghost predicate Resting(s: State) {
    && s.threads.Keys == s.invoked.Keys == s.returned.Keys == s.fails.Keys == s.writes.Keys
    && forall t <- s.threads :: !s.threads[t].AtCas?
  }

  /** The first load followed at once by the CAS brings a waiting call to its return, with the reference's effect and
      result; so does the one step of a call without a loop. */
  lemma TakeEvent(s: State, t: Tid) returns (acts: seq<Action>)
    requires Resting(s) && AEnabled(Abs(s), Take(t))
    ensures IsRun(s, acts) && Resting(Exec(s, acts)) && Abs(Exec(s, acts)) == ADo(Abs(s), Take(t))
    ensures acts == [OneStep(t)] || acts == [FirstLoad(t), TryCas(t)]
  {
    if Loops(s.threads[t].op) {
      acts := LoopEvent(s, t);
    } else {
      var s';
      acts, s' := Extend(s, [], s, OneStep(t));
      assert Abs(s').calls == Abs(s).calls[t := Finished(s.threads[t].op, Result(s.threads[t].op, s.v))];
    }
  }

  lemma LoopEvent(s: State, t: Tid) returns (acts: seq<Action>)
    requires Resting(s) && AEnabled(Abs(s), Take(t)) && Loops(s.threads[t].op)
    ensures IsRun(s, acts) && Resting(Exec(s, acts)) && Abs(Exec(s, acts)) == ADo(Abs(s), Take(t))
    ensures acts == [FirstLoad(t), TryCas(t)]
  {
    StepRefines(s, FirstLoad(t));
    var s1, s2;
    acts, s1 := Extend(s, [], s, FirstLoad(t));
    StepRefines(s1, TryCas(t));
    acts, s2 := Extend(s, acts, s1, TryCas(t));
  }

  lemma BeginEvent(s: State, t: Tid, op: Op) returns (acts: seq<Action>)
    requires Resting(s) && AEnabled(Abs(s), Invoke(t, op))
    ensures IsRun(s, acts) && Resting(Exec(s, acts)) && Abs(Exec(s, acts)) == ADo(Abs(s), Invoke(t, op))
  {
    var s';
    acts, s' := Extend(s, [], s, Begin(t, op));
    assert Abs(s').calls == Abs(s).calls[t := Pending(op)];
  }

  lemma EndEvent(s: State, t: Tid) returns (acts: seq<Action>)
    requires Resting(s) && AEnabled(Abs(s), Return(t))
    ensures IsRun(s, acts) && Resting(Exec(s, acts)) && Abs(Exec(s, acts)) == ADo(Abs(s), Return(t))
  {
    var s';
    acts, s' := Extend(s, [], s, End(t));
    assert Abs(s').calls == Abs(s).calls[t := NoCall];
  }

  lemma Event(s: State, ev: Event) returns (acts: seq<Action>)
    requires Resting(s) && AEnabled(Abs(s), ev)
    ensures IsRun(s, acts) && Resting(Exec(s, acts)) && Abs(Exec(s, acts)) == ADo(Abs(s), ev)
  {
    match ev
    case Invoke(t, op) => acts := BeginEvent(s, t, op);
    case Take(t) => acts := TakeEvent(s, t);
    case Return(t) => acts := EndEvent(s, t);
  }

  lemma {:induction false} Realize(s: State, evs: seq<Event>) returns (acts: seq<Action>)
    requires Resting(s) && AIsRun(Abs(s), evs)
    ensures IsRun(s, acts) && Abs(Exec(s, acts)) == AExec(Abs(s), evs)
    decreases evs
  {
    acts := [];
    if evs != [] {
      acts := Event(s, evs[0]);
      var more := Realize(Exec(s, acts), evs[1..]);
      ExecConcat(s, acts, more);
      acts := acts + more;
    }
  }

  /** Whatever one-step operations can do, with the same calls, results and history, some run of this machine does. */
  lemma Complete(s0: State, evs: seq<Event>) returns (acts: seq<Action>)
    requires Init(s0) && AIsRun(Abs(s0), evs)
    ensures IsRun(s0, acts) && Abs(Exec(s0, acts)) == AExec(Abs(s0), evs)
  {
    acts := Realize(s0, evs);
  }

  /** Only the operations with a loop are in one. */
  ghost predicate InLoops(s: State) {
    && s.threads.Keys == s.invoked.Keys == s.returned.Keys == s.fails.Keys == s.writes.Keys
    && forall t <- s.threads :: s.threads[t].AtCas? ==> Loops(s.threads[t].op)
  }

  lemma {:induction false} RunInLoops(s: State, acts: seq<Action>)
    requires InLoops(s) && IsRun(s, acts)
    ensures InLoops(Exec(s, acts))
    decreases acts
  {
    if acts != [] {
      RunInLoops(Do(s, acts[0]), acts[1..]);
    }
  }

  /** From every reachable state a thread that is in a loop and runs alone finishes its call: at this attempt or the
      next. */
  lemma FinishesAlone(s: State, t: Tid) returns (acts: seq<Action>)
    requires InLoops(s) && t in s.threads && s.threads[t].AtCas?
    ensures IsRun(s, acts) && (acts == [TryCas(t)] || acts == [TryCas(t), TryCas(t)])
    ensures var s', op := Exec(s, acts), s.threads[t].op;
            && s'.threads == s.threads[t := AtReturn(op, Result(op, s.v))] && s'.v == After(op, s.v)
            && s'.log == s.log + [Effect(t, op, Result(op, s.v))]
  {
    var s';
    KernelMeetsReference(s.threads[t].op, s.v);
    acts, s' := Extend(s, [], s, TryCas(t));
    if s'.threads[t].AtCas? {
      acts, s' := Extend(s, acts, s', TryCas(t));
    }
  }
}
