/**
 What whole runs of the primitives keep: sums modulo 2^32, the single zero crossing of a run of
 decrements, and the values that swaps move around. First for histories, then for what the calls of all
 threads add up to, in every run of every machine.
 */
module Conservation {
  import opened AtomicSpec
  import opened Sums
  import LlscLoops
  import CasLoops
  import LockOps

  // ---------------------------------------------------------------- totals

  type Measure = (Op, Int32) -> int

  /** The sum of a measure over calls with their results. */
  function Tally(w: Measure, calls: seq<(Op, Int32)>): int {
    if calls == [] then 0
    else Tally(w, calls[..|calls| - 1]) + w(calls[|calls| - 1].0, calls[|calls| - 1].1)
  }

  function LogTally(w: Measure, log: seq<Effect>): int {
    if log == [] then 0 else LogTally(w, log[..|log| - 1]) + w(log[|log| - 1].op, log[|log| - 1].ret)
  }

  function PerThread(w: Measure, log: seq<Effect>): nat -> int {
    (t: nat) => Tally(w, Own(log, t))
  }

  predicate ThreadsBelow(log: seq<Effect>, n: nat) {
    forall i :: 0 <= i < |log| ==> log[i].t < n
  }

  lemma TallyAppend(w: Measure, calls: seq<(Op, Int32)>, c: (Op, Int32))
    ensures Tally(w, calls + [c]) == Tally(w, calls) + w(c.0, c.1)
  {
    assert (calls + [c])[..|calls|] == calls;
  }

  /** The total of a history is the sum of the totals of its threads. */
  lemma {:induction false} ByThread(w: Measure, log: seq<Effect>, n: nat)
    requires ThreadsBelow(log, n)
    ensures LogTally(w, log) == SumUpTo(n, PerThread(w, log))
    decreases |log|
  {
    if log == [] {
      SumZero(n, PerThread(w, log));
    } else {
      var before, e := log[..|log| - 1], log[|log| - 1];
      ByThread(w, before, n);
      TallyAppend(w, Own(before, e.t), (e.op, e.ret));
      forall u: nat | u < n && u != e.t
        ensures PerThread(w, log)(u) == PerThread(w, before)(u)
      {
        assert Own(log, u) == Own(before, u);
      }
      SumChange(n, PerThread(w, before), PerThread(w, log), e.t, w(e.op, e.ret));
    }
  }

  /** All calls of the threads 0 .. n-1 are over. */
  ghost predicate AllReturned(a: Atomic, n: nat) {
    && (forall t: nat :: t in a.calls <==> t < n)
    && (forall t: nat :: t in a.invoked <==> t < n)
    && (forall t: nat :: t in a.returned <==> t < n)
    && forall t: nat :: t < n ==> a.calls[t] == NoCall
  }

  /** The history holds exactly the calls that the threads have made, with the results that they have got. */
  ghost predicate Settled(v0: Int32, a: Atomic, n: nat) {
    && Legal(v0, a.log) && a.v == Replay(v0, a.log) && ThreadsBelow(a.log, n)
    && forall t: nat :: t < n ==>
         t in a.returned && t in a.invoked && Own(a.log, t) == a.returned[t] && Ops(a.returned[t]) == a.invoked[t]
  }

  lemma AllSettled(v0: Int32, a: Atomic, n: nat)
    requires Linearized(v0, a) && AllReturned(a, n)
    ensures Settled(v0, a, n)
  {
    forall t: nat | t < n
      ensures t in a.returned && t in a.invoked && Own(a.log, t) == a.returned[t] && Ops(a.returned[t]) == a.invoked[t]
    {
      assert Accounted(a, t);
    }
  }

  /** A measure of what thread t has got back. */
  function Back(w: Measure, a: Atomic): nat -> int {
    (t: nat) => if t in a.returned then Tally(w, a.returned[t]) else 0
  }

  lemma ReturnedTotal(w: Measure, v0: Int32, a: Atomic, n: nat)
    requires Settled(v0, a, n)
    ensures LogTally(w, a.log) == SumUpTo(n, Back(w, a))
  {
    ByThread(w, a.log, n);
    SumSame(n, Back(w, a), PerThread(w, a.log));
  }

  lemma {:induction false} InOwn(log: seq<Effect>, i: nat)
    requires i < |log|
    ensures (log[i].op, log[i].ret) in Own(log, log[i].t)
    decreases |log|
  {
    if i < |log| - 1 {
      InOwn(log[..|log| - 1], i);
    }
  }

  /** Every operation of the history was invoked by its thread. */
  lemma WasInvoked(v0: Int32, a: Atomic, n: nat, i: nat)
    requires Settled(v0, a, n) && i < |a.log|
    ensures a.log[i].t in a.invoked && a.log[i].op in a.invoked[a.log[i].t]
  {
    var t, own := a.log[i].t, Own(a.log, a.log[i].t);
    InOwn(a.log, i);
    var k :| 0 <= k < |own| && own[k] == (a.log[i].op, a.log[i].ret);
    assert a.invoked[t][k] == Ops(own)[k];
  }

  // ---------------------------------------------------------------- sums

  /** The word v is v0 plus x, wrapped around to 32 bits. */
  predicate IsPlus(v: Int32, v0: Int32, x: int) {
    v == Wrap(v0 + x)
  }

  /** The word v is v0 minus x, wrapped around to 32 bits. */
  predicate IsMinus(v: Int32, v0: Int32, x: int) {
    v == Wrap(v0 - x)
  }

  predicate Additive(op: Op) {
    op.Load? || op.Add? || op.Incr? || op.Decr? || op.DecrAndTest? || op.FetchAdd? || op.FetchIncr? || op.FetchDecr?
  }

  /** What an operation adds, whatever it returns. */
  function Addend(op: Op, ret: Int32): int {
    match op
    case Add(x) => x
    case FetchAdd(x) => x
    case Incr => 1
    case FetchIncr => 1
    case Decr => -1
    case DecrAndTest => -1
    case FetchDecr => -1
    case _ => 0
  }

  ghost predicate AllAdditive(log: seq<Effect>) {
    forall i :: 0 <= i < |log| ==> Additive(log[i].op)
  }

  lemma WrapAgain(x: int, y: int)
    ensures Wrap(Wrap(x) + y) == Wrap(x + y)
  {
    var k := (x + TWO_31) / TWO_32;
    assert Wrap(x) == x - k * TWO_32;
    ModShift(x + y + TWO_31, -k);
  }

  lemma {:induction false} ModShift(a: int, k: int)
    ensures (a + k * TWO_32) % TWO_32 == a % TWO_32
    decreases if k < 0 then -k else k
  {
    if k > 0 {
      ModShift(a, k - 1);
    } else if k < 0 {
      ModShift(a, k + 1);
    }
  }

  lemma WrapId(v: Int32)
    ensures Wrap(v) == v
  {
  }

  /** Whatever the order of the operations, the word ends as the initial value plus all addends, modulo 2^32. */
  lemma {:induction false} SumKept(v: Int32, log: seq<Effect>)
    requires AllAdditive(log)
    ensures IsPlus(Replay(v, log), v, LogTally(Addend, log))
    decreases |log|
  {
    if log == [] {
      WrapId(v);
    } else {
      var before, e := log[..|log| - 1], log[|log| - 1];
      SumKept(v, before);
      WrapAgain(v + LogTally(Addend, before), Addend(e.op, e.ret));
      WrapId(Replay(v, before));
    }
  }

  /** What the operations that thread t has invoked add up to. */
  function Added(ops: seq<Op>): int {
    if ops == [] then 0 else Added(ops[..|ops| - 1]) + Addend(ops[|ops| - 1], 0)
  }

  function AddedBy(a: Atomic): nat -> int {
    (t: nat) => if t in a.invoked then Added(a.invoked[t]) else 0
  }

  lemma {:induction false} AddedTally(calls: seq<(Op, Int32)>)
    ensures Tally(Addend, calls) == Added(Ops(calls))
    decreases |calls|
  {
    if calls != [] {
      AddedTally(calls[..|calls| - 1]);
      assert Ops(calls)[..|calls| - 1] == Ops(calls[..|calls| - 1]);
    }
  }

  predicate OnlyInvoked(a: Atomic, ops: Op -> bool) {
    forall t <- a.invoked :: forall op <- a.invoked[t] :: ops(op)
  }

  lemma AddedIsLogged(v0: Int32, a: Atomic, n: nat)
    requires Settled(v0, a, n)
    ensures LogTally(Addend, a.log) == SumUpTo(n, AddedBy(a))
  {
    ReturnedTotal(Addend, v0, a, n);
    forall t: nat | t < n
      ensures AddedBy(a)(t) == Back(Addend, a)(t)
    {
      AddedTally(a.returned[t]);
    }
    SumSame(n, Back(Addend, a), AddedBy(a));
  }

  lemma OnlyAdditive(v0: Int32, a: Atomic, n: nat)
    requires Settled(v0, a, n) && OnlyInvoked(a, Additive)
    ensures AllAdditive(a.log)
  {
    forall i | 0 <= i < |a.log|
      ensures Additive(a.log[i].op)
    {
      WasInvoked(v0, a, n, i);
    }
  }

  lemma LogSum(v0: Int32, a: Atomic, n: nat)
    requires Settled(v0, a, n) && OnlyInvoked(a, Additive)
    ensures IsPlus(a.v, v0, LogTally(Addend, a.log))
  {
    OnlyAdditive(v0, a, n);
    SumKept(v0, a.log);
  }

  /** When all calls of additive operations are over, the word is the initial value plus what all threads
      have added, modulo 2^32. */
  lemma ThreadsSum(v0: Int32, a: Atomic, n: nat)
    requires Settled(v0, a, n) && OnlyInvoked(a, Additive)
    ensures IsPlus(a.v, v0, SumUpTo(n, AddedBy(a)))
  {
    AddedIsLogged(v0, a, n);
    LogSum(v0, a, n);
  }

  // ---------------------------------------------------------------- decrements

  ghost predicate OnlyDecrAndTest(log: seq<Effect>) {
    forall i :: 0 <= i < |log| ==> log[i].op == DecrAndTest
  }

  predicate IsDecrAndTest(op: Op) {
    op == DecrAndTest
  }

  /** Counts the calls that returned true. */
  function IsTrue(op: Op, ret: Int32): int {
    if ret != 0 then 1 else 0
  }

  /** From s > 0, fewer than 2^32 decrements: true is returned exactly once if there are at least s, else never. */
  lemma {:induction false} OneZeroCrossing(s: Int32, log: seq<Effect>)
    requires s > 0 && OnlyDecrAndTest(log) && Legal(s, log) && |log| < TWO_32
    ensures LogTally(IsTrue, log) == if |log| >= s then 1 else 0
    ensures IsMinus(Replay(s, log), s, |log|)
    decreases |log|
  {
    if log == [] {
      WrapId(s);
    } else {
      var n := |log| - 1;
      OneZeroCrossing(s, log[..n]);
      NextDecrement(s - n);
    }
  }

  lemma NextDecrement(x: int)
    requires -TWO_32 < x - 1 && x - 1 < TWO_31
    ensures Result(DecrAndTest, Wrap(x)) == if x == 1 then 1 else 0
    ensures After(DecrAndTest, Wrap(x)) == Wrap(x - 1)
  {
    WrapAgain(x, -1);
    ZeroOnce(x - 1);
  }

  lemma ZeroOnce(x: int)
    requires -TWO_32 < x < TWO_31
    ensures Wrap(x) == 0 <==> x == 0
  {
  }

  function One(op: Op, ret: Int32): int {
    1
  }

  lemma {:induction false} LogLength(log: seq<Effect>)
    ensures LogTally(One, log) == |log|
    decreases |log|
  {
    if log != [] {
      LogLength(log[..|log| - 1]);
    }
  }

  /** How often thread t's calls have returned, and how often true. */
  function Calls(a: Atomic): nat -> int {
    Back(One, a)
  }

  function Trues(a: Atomic): nat -> int {
    Back(IsTrue, a)
  }

  lemma OnlyDecrements(v0: Int32, a: Atomic, n: nat)
    requires Settled(v0, a, n) && OnlyInvoked(a, IsDecrAndTest)
    ensures OnlyDecrAndTest(a.log)
  {
    forall i | 0 <= i < |a.log|
      ensures a.log[i].op == DecrAndTest
    {
      WasInvoked(v0, a, n, i);
    }
  }

  lemma LogCounts(v0: Int32, a: Atomic, n: nat)
    requires Settled(v0, a, n)
    ensures |a.log| == SumUpTo(n, Calls(a)) && LogTally(IsTrue, a.log) == SumUpTo(n, Trues(a))
  {
    ReturnedTotal(One, v0, a, n);
    LogLength(a.log);
    ReturnedTotal(IsTrue, v0, a, n);
  }

  lemma LogDecrements(v0: Int32, a: Atomic, n: nat)
    requires Settled(v0, a, n) && OnlyInvoked(a, IsDecrAndTest) && v0 > 0 && |a.log| < TWO_32
    ensures LogTally(IsTrue, a.log) == if |a.log| >= v0 then 1 else 0
    ensures IsMinus(a.v, v0, |a.log|)
  {
    OnlyDecrements(v0, a, n);
    OneZeroCrossing(v0, a.log);
  }

  /** When all calls of decr_and_test are over, the threads have together been told true exactly once if they have
      made at least v0 calls, else never. */
  lemma ThreadsDecrement(v0: Int32, a: Atomic, n: nat)
    requires Settled(v0, a, n) && OnlyInvoked(a, IsDecrAndTest)
    requires v0 > 0 && SumUpTo(n, Calls(a)) < TWO_32
    ensures SumUpTo(n, Trues(a)) == if SumUpTo(n, Calls(a)) >= v0 then 1 else 0
    ensures IsMinus(a.v, v0, SumUpTo(n, Calls(a)))
  {
    LogCounts(v0, a, n);
    LogDecrements(v0, a, n);
  }

  /** The decrement test while it is running over weak LL/SC: as soon as s0.v decrements have taken effect, exactly one
      of them has the result true. */
  lemma DecrementTest(s0: LlscLoops.State, acts: seq<LlscLoops.Action>)
    requires LlscLoops.Init(s0) && LlscLoops.IsRun(s0, acts) && s0.v > 0
    requires var log := LlscLoops.Exec(s0, acts).log;
             OnlyDecrAndTest(log) && s0.v <= |log| < TWO_32
    ensures var s := LlscLoops.Exec(s0, acts);
            LogTally(IsTrue, s.log) == 1 && IsMinus(s.v, s0.v, |s.log|)
  {
    LlscLoops.InOrderOfTime(s0, acts, 0);
    OneZeroCrossing(s0.v, LlscLoops.Exec(s0, acts).log);
  }

  // ---------------------------------------------------------------- swaps

  ghost predicate OnlySwaps(log: seq<Effect>) {
    forall i :: 0 <= i < |log| ==> log[i].op.Swap?
  }

  /** The values that the swaps of a history have put in, and the ones they have got out. */
  function PutIn(log: seq<Effect>): multiset<Int32>
    requires OnlySwaps(log)
  {
    if log == [] then multiset{} else PutIn(log[..|log| - 1]) + multiset{log[|log| - 1].op.val}
  }

  function GotOut(log: seq<Effect>): multiset<Int32> {
    if log == [] then multiset{} else GotOut(log[..|log| - 1]) + multiset{log[|log| - 1].ret}
  }

  /** What has been got out, and the word in the end, are the initial word and what has been put in. */
  lemma {:induction false} SwapsKept(v: Int32, log: seq<Effect>)
    requires OnlySwaps(log) && Legal(v, log)
    ensures GotOut(log) + multiset{Replay(v, log)} == PutIn(log) + multiset{v}
    decreases |log|
  {
    if log != [] {
      SwapsKept(v, log[..|log| - 1]);
    }
  }

  /** A thread's local value: what its last swap has returned, at first what it started with. */
  function Local(initial: Int32, calls: seq<(Op, Int32)>): Int32 {
    if calls == [] then initial else calls[|calls| - 1].1
  }

  function LocalsAfter(locals: seq<Int32>, log: seq<Effect>): seq<Int32> {
    seq(|locals|, t requires 0 <= t < |locals| => Local(locals[t], Own(log, t)))
  }

  /** In the history every thread has swapped in its local value. */
  ghost predicate SwapsLocals(locals: seq<Int32>, log: seq<Effect>)
    decreases |log|
  {
    log != [] ==>
      var before, e := log[..|log| - 1], log[|log| - 1];
      SwapsLocals(locals, before) && e.t < |locals| && e.op == Swap(LocalsAfter(locals, before)[e.t])
  }

  /** The same, said of each thread's own calls. */
  ghost predicate EachSwapsLocal(locals: seq<Int32>, log: seq<Effect>) {
    forall t, k: nat :: 0 <= t < |locals| && k < |Own(log, t)| ==>
      Own(log, t)[k].0 == Swap(Local(locals[t], Own(log, t)[..k]))
  }

  lemma EachSwapsLocalPrefix(locals: seq<Int32>, log: seq<Effect>)
    requires EachSwapsLocal(locals, log) && log != [] && log[|log| - 1].t < |locals|
    ensures EachSwapsLocal(locals, log[..|log| - 1])
    ensures log[|log| - 1].op == Swap(LocalsAfter(locals, log[..|log| - 1])[log[|log| - 1].t])
  {
    var before, e := log[..|log| - 1], log[|log| - 1];
    forall t, k: nat | 0 <= t < |locals| && k < |Own(before, t)|
      ensures Own(before, t)[k].0 == Swap(Local(locals[t], Own(before, t)[..k]))
    {
      assert Own(log, t)[k] == Own(before, t)[k] && Own(log, t)[..k] == Own(before, t)[..k];
    }
    var m := |Own(before, e.t)|;
    assert Own(log, e.t)[m].0 == e.op && Own(log, e.t)[..m] == Own(before, e.t);
  }

  lemma {:induction false} EachThenAll(locals: seq<Int32>, log: seq<Effect>)
    requires EachSwapsLocal(locals, log) && ThreadsBelow(log, |locals|)
    ensures SwapsLocals(locals, log)
    decreases |log|
  {
    if log != [] {
      BelowPrefix(log, |locals|);
      EachSwapsLocalPrefix(locals, log);
      EachThenAll(locals, log[..|log| - 1]);
    }
  }

  lemma BelowPrefix(log: seq<Effect>, n: nat)
    requires ThreadsBelow(log, n) && log != []
    ensures ThreadsBelow(log[..|log| - 1], n) && log[|log| - 1].t < n
  {
  }

  lemma LocalsStep(locals: seq<Int32>, log: seq<Effect>)
    requires log != [] && log[|log| - 1].t < |locals|
    ensures var before, e := log[..|log| - 1], log[|log| - 1];
            LocalsAfter(locals, log) == LocalsAfter(locals, before)[e.t := e.ret]
  {
  }

  /** The local values and the shared one are, as a multiset, what they were at the start. */
  lemma {:induction false} LocalsKept(v: Int32, locals: seq<Int32>, log: seq<Effect>)
    requires Legal(v, log) && SwapsLocals(locals, log)
    ensures multiset{Replay(v, log)} + multiset(LocalsAfter(locals, log)) == multiset{v} + multiset(locals)
    decreases |log|
  {
    if log == [] {
      assert LocalsAfter(locals, log) == locals;
    } else {
      var before, e := log[..|log| - 1], log[|log| - 1];
      LocalsKept(v, locals, before);
      LocalsStep(locals, log);
      SwapKeeps(LocalsAfter(locals, before), e.t, e.ret);
    }
  }

  /** The program of the swap test: each thread's next operand is what its last swap has returned. */
  ghost predicate InvokesLocals(a: Atomic, locals: seq<Int32>) {
    forall t, k: nat :: t in a.invoked && t < |locals| && k < |a.invoked[t]| ==>
      t in a.returned && k <= |a.returned[t]| && a.invoked[t][k] == Swap(Local(locals[t], a.returned[t][..k]))
  }

  function FinalLocals(a: Atomic, locals: seq<Int32>): seq<Int32>
    requires AllReturned(a, |locals|)
  {
    seq(|locals|, t requires 0 <= t < |locals| => Local(locals[t], a.returned[t]))
  }

  lemma SwapsWereLocals(v0: Int32, a: Atomic, locals: seq<Int32>)
    requires Settled(v0, a, |locals|) && InvokesLocals(a, locals)
    ensures SwapsLocals(locals, a.log)
  {
    forall t, k: nat | 0 <= t < |locals| && k < |Own(a.log, t)|
      ensures Own(a.log, t)[k].0 == Swap(Local(locals[t], Own(a.log, t)[..k]))
    {
      assert a.invoked[t][k] == a.returned[t][k].0;
    }
    EachThenAll(locals, a.log);
  }

  lemma ThreadsSwap(v0: Int32, a: Atomic, locals: seq<Int32>)
    requires Settled(v0, a, |locals|) && AllReturned(a, |locals|) && InvokesLocals(a, locals)
    ensures multiset{a.v} + multiset(FinalLocals(a, locals)) == multiset{v0} + multiset(locals)
  {
    SwapsWereLocals(v0, a, locals);
    LocalsKept(v0, locals, a.log);
    assert FinalLocals(a, locals) == LocalsAfter(locals, a.log);
  }

  /** The shared value and the local ones after each of these threads in turn has exchanged its own with the shared
      one. */
  function AfterSwaps(shared: Int32, locals: seq<Int32>, schedule: seq<nat>): (r: (Int32, seq<Int32>))
    requires forall i :: 0 <= i < |schedule| ==> schedule[i] < |locals|
    ensures |r.1| == |locals|
  {
    if schedule == [] then (shared, locals)
    else
      var (s, ls) := AfterSwaps(shared, locals, schedule[..|schedule| - 1]);
      var t := schedule[|schedule| - 1];
      (ls[t], ls[t := s])
  }

  /** The swap test: in any interleaving each thread swaps its local value with the shared one; no value is lost or
      copied. */
  method RunSwaps(shared: Int32, locals: array<Int32>, schedule: seq<nat>) returns (shared': Int32)
    requires forall i :: 0 <= i < |schedule| ==> schedule[i] < locals.Length
    modifies locals
    ensures (shared', locals[..]) == AfterSwaps(shared, old(locals[..]), schedule)
    ensures multiset{shared'} + multiset(locals[..]) == multiset{shared} + multiset(old(locals[..]))
  {
    shared' := shared;
    for i := 0 to |schedule|
      invariant (shared', locals[..]) == AfterSwaps(shared, old(locals[..]), schedule[..i])
      invariant multiset{shared'} + multiset(locals[..]) == multiset{shared} + multiset(old(locals[..]))
    {
      assert schedule[..i + 1][..i] == schedule[..i];
      var t := schedule[i];
      ghost var was := locals[..];
      var prev := Result(Swap(locals[t]), shared');
      shared' := After(Swap(locals[t]), shared');
      locals[t] := prev;
      assert locals[..] == was[t := prev];
      SwapKeeps(was, t, prev);
    }
    assert schedule[..|schedule|] == schedule;
  }

  lemma SwapKeeps(a: seq<Int32>, t: nat, x: Int32)
    requires t < |a|
    ensures multiset{a[t]} + multiset(a[t := x]) == multiset{x} + multiset(a)
  {
    assert a == a[..t] + [a[t]] + a[t + 1..];
    assert a[t := x] == a[..t] + [x] + a[t + 1..];
  }

  // ---------------------------------------------------------------- the machines

  ghost predicate AddsUp(v0: Int32, a: Atomic, n: nat) {
    OnlyInvoked(a, Additive) ==> IsPlus(a.v, v0, SumUpTo(n, AddedBy(a)))
  }

  ghost predicate TrueOnce(v0: Int32, a: Atomic, n: nat) {
    OnlyInvoked(a, IsDecrAndTest) && v0 > 0 && SumUpTo(n, Calls(a)) < TWO_32 ==>
      SumUpTo(n, Trues(a)) == if SumUpTo(n, Calls(a)) >= v0 then 1 else 0
  }

  ghost predicate ValuesKept(v0: Int32, a: Atomic, locals: seq<Int32>)
    requires AllReturned(a, |locals|)
  {
    InvokesLocals(a, locals) ==>
      multiset{a.v} + multiset(FinalLocals(a, locals)) == multiset{v0} + multiset(locals)
  }

  /** What all threads have added together, what their decrements have told them, and what their swaps have left
      them. */
  ghost predicate Conserves(v0: Int32, a: Atomic, locals: seq<Int32>)
    requires AllReturned(a, |locals|)
  {
    AddsUp(v0, a, |locals|) && TrueOnce(v0, a, |locals|) && ValuesKept(v0, a, locals)
  }

  lemma SettledTrueOnce(v0: Int32, a: Atomic, n: nat)
    requires Settled(v0, a, n)
    ensures TrueOnce(v0, a, n)
  {
    if OnlyInvoked(a, IsDecrAndTest) && v0 > 0 && SumUpTo(n, Calls(a)) < TWO_32 {
      ThreadsDecrement(v0, a, n);
    }
  }

  lemma SettledAddsUp(v0: Int32, a: Atomic, n: nat)
    requires Settled(v0, a, n)
    ensures AddsUp(v0, a, n)
  {
    if OnlyInvoked(a, Additive) {
      ThreadsSum(v0, a, n);
    }
  }

  lemma SettledValuesKept(v0: Int32, a: Atomic, locals: seq<Int32>)
    requires Settled(v0, a, |locals|) && AllReturned(a, |locals|)
    ensures ValuesKept(v0, a, locals)
  {
    if InvokesLocals(a, locals) {
      ThreadsSwap(v0, a, locals);
    }
  }

  lemma LinearizedConserves(v0: Int32, a: Atomic, locals: seq<Int32>)
    requires Linearized(v0, a) && AllReturned(a, |locals|)
    ensures Conserves(v0, a, locals)
  {
    AllSettled(v0, a, |locals|);
    SettledAddsUp(v0, a, |locals|);
    SettledTrueOnce(v0, a, |locals|);
    SettledValuesKept(v0, a, locals);
  }

  /** In every run of any number of threads over weak LL/SC, once all calls are over. */
  lemma LlscConserves(s0: LlscLoops.State, acts: seq<LlscLoops.Action>, locals: seq<Int32>)
    requires LlscLoops.Init(s0) && LlscLoops.IsRun(s0, acts)
    requires AllReturned(LlscLoops.Abs(LlscLoops.Exec(s0, acts)), |locals|)
    ensures Conserves(s0.v, LlscLoops.Abs(LlscLoops.Exec(s0, acts)), locals)
  {
    LlscLoops.InOrderOfTime(s0, acts, 0);
    LinearizedConserves(s0.v, LlscLoops.Abs(LlscLoops.Exec(s0, acts)), locals);
  }

  /** Conservation over CAS. */
  lemma CasConserves(s0: CasLoops.State, acts: seq<CasLoops.Action>, locals: seq<Int32>)
    requires CasLoops.Init(s0) && CasLoops.IsRun(s0, acts)
    requires AllReturned(CasLoops.Abs(CasLoops.Exec(s0, acts)), |locals|)
    ensures Conserves(s0.v, CasLoops.Abs(CasLoops.Exec(s0, acts)), locals)
  {
    CasLoops.InOrderOfTime(s0, acts, 0);
    LinearizedConserves(s0.v, CasLoops.Abs(CasLoops.Exec(s0, acts)), locals);
  }

  /** The swap test over CAS: if each thread's next operand is what its last swap has returned, the shared
      and the local values are in the end, as a multiset, what they were at the start. */
  lemma SwapTest(s0: CasLoops.State, acts: seq<CasLoops.Action>, locals: seq<Int32>)
    requires CasLoops.Init(s0) && CasLoops.IsRun(s0, acts)
    requires AllReturned(CasLoops.Abs(CasLoops.Exec(s0, acts)), |locals|)
    requires InvokesLocals(CasLoops.Abs(CasLoops.Exec(s0, acts)), locals)
    ensures var a := CasLoops.Abs(CasLoops.Exec(s0, acts));
            multiset{a.v} + multiset(FinalLocals(a, locals)) == multiset{s0.v} + multiset(locals)
  {
    CasConserves(s0, acts, locals);
  }

  /** Conservation under the lock. */
  lemma LockConserves(s0: LockOps.State, acts: seq<LockOps.Action>, locals: seq<Int32>)
    requires LockOps.Init(s0) && LockOps.IsRun(s0, acts)
    requires AllReturned(LockOps.Abs(LockOps.Exec(s0, acts)), |locals|)
    ensures Conserves(s0.v, LockOps.Abs(LockOps.Exec(s0, acts)), locals)
  {
    LockOps.InOrderOfTime(s0, acts, 0);
    LinearizedConserves(s0.v, LockOps.Abs(LockOps.Exec(s0, acts)), locals);
  }
}
