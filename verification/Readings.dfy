/**
 What the operations return, told by what other operations of the same run have returned or stored: every value that
 is returned is the last value known to be in the word, plus what has been added since.
 */
module Readings {
  import opened AtomicSpec
  import opened Conservation
  import opened Options
  import LlscLoops
  import CasLoops
  import LockOps

  /** The operations that return the value they have found, before they change it. */
  predicate ReturnsOld(op: Op) {
    op.Load? || op.FetchAdd? || op.FetchIncr? || op.FetchDecr? || op.Cas? || op.Swap?
  }

  /** The word that a call has left, as far as its operands and its result alone tell. */
  function Left(e: Effect): Option<Int32> {
    match e.op
    case Store(x) => Some(x)
    case Swap(x) => Some(x)
    case Cas(o, n) => Some(if e.ret == o then n else e.ret)
    case Load => Some(e.ret)
    case FetchAdd(x) => Some(Wrap(e.ret + x))
    case FetchIncr => Some(Wrap(e.ret + 1))
    case FetchDecr => Some(Wrap(e.ret - 1))
    case _ => None
  }

  lemma {:induction false} ReplayConcat(v: Int32, a: seq<Effect>, b: seq<Effect>)
    ensures Replay(v, a + b) == Replay(Replay(v, a), b)
    decreases |b|
  {
    if b == [] {
      assert a + b == a;
    } else {
      assert (a + b)[..|a + b| - 1] == a + b[..|b| - 1];
      ReplayConcat(v, a, b[..|b| - 1]);
    }
  }

  lemma ReadsWord(v: Int32, log: seq<Effect>, j: nat)
    requires Legal(v, log) && j < |log|
    ensures ReturnsOld(log[j].op) ==> log[j].ret == Replay(v, log[..j])
    ensures log[j].op == DecrAndTest ==> log[j].ret == if Wrap(Replay(v, log[..j]) - 1) == 0 then 1 else 0
    ensures Left(log[j]).Some? ==> Left(log[j]).value == Replay(v, log[..j + 1])
  {
    LegalAt(v, log, j);
    assert log[..j + 1][..j] == log[..j];
  }

  /** The result of a call that finds `known` plus what has been added since: the sum itself, or for the test
      whether one less is 0. */
  ghost predicate Tells(e: Effect, known: Int32, added: int) {
    && (ReturnsOld(e.op) ==> IsPlus(e.ret, known, added))
    && (e.op == DecrAndTest ==> (e.ret == 1 <==> IsPlus(0, known, added - 1)) && (e.ret == 0 || e.ret == 1))
  }

  lemma TellsSum(v: Int32, log: seq<Effect>, j: nat, known: Int32, since: seq<Effect>)
    requires Legal(v, log) && j < |log| && AllAdditive(since)
    requires Replay(v, log[..j]) == Replay(known, since)
    ensures Tells(log[j], known, LogTally(Addend, since))
  {
    ReadsWord(v, log, j);
    SumKept(known, since);
    WrapAgain(known + LogTally(Addend, since), -1);
  }

  /** Every call of the history tells the initial word plus all addends, if nothing but additive operations have
      come before. */
  ghost predicate TellsInitial(v0: Int32, log: seq<Effect>) {
    forall j :: 0 <= j < |log| && AllAdditive(log[..j]) ==> Tells(log[j], v0, LogTally(Addend, log[..j]))
  }

  /** Every call tells the word that an earlier call has left, plus the addends of the calls in between. */
  ghost predicate TellsLast(log: seq<Effect>) {
    forall i, j :: 0 <= i < j < |log| && Left(log[i]).Some? && AllAdditive(log[i + 1..j]) ==>
      Tells(log[j], Left(log[i]).value, LogTally(Addend, log[i + 1..j]))
  }

  lemma TellsInitialAlways(v0: Int32, log: seq<Effect>)
    requires Legal(v0, log)
    ensures TellsInitial(v0, log)
  {
    forall j | 0 <= j < |log| && AllAdditive(log[..j])
      ensures Tells(log[j], v0, LogTally(Addend, log[..j]))
    {
      TellsSum(v0, log, j, v0, log[..j]);
    }
  }

  lemma TellsLastAt(v0: Int32, log: seq<Effect>, i: nat, j: nat)
    requires Legal(v0, log) && i < j < |log| && Left(log[i]).Some? && AllAdditive(log[i + 1..j])
    ensures Tells(log[j], Left(log[i]).value, LogTally(Addend, log[i + 1..j]))
  {
    ReadsWord(v0, log, i);
    assert log[..i + 1] + log[i + 1..j] == log[..j];
    ReplayConcat(v0, log[..i + 1], log[i + 1..j]);
    TellsSum(v0, log, j, Left(log[i]).value, log[i + 1..j]);
  }

  lemma TellsLastAlways(v0: Int32, log: seq<Effect>)
    requires Legal(v0, log)
    ensures TellsLast(log)
  {
    forall i, j | 0 <= i < j < |log| && Left(log[i]).Some? && AllAdditive(log[i + 1..j])
      ensures Tells(log[j], Left(log[i]).value, LogTally(Addend, log[i + 1..j]))
    {
      TellsLastAt(v0, log, i, j);
    }
  }

  /** In particular a load directly after a store or a swap returns what has been stored, and after a compare-and-swap
      the new value if that has returned the expected one, else what it has returned. */
  lemma LoadAfter(v0: Int32, log: seq<Effect>, i: nat)
    requires Legal(v0, log) && i + 1 < |log| && log[i + 1].op == Load
    ensures match log[i].op
            case Store(x) => log[i + 1].ret == x
            case Swap(x) => log[i + 1].ret == x
            case Cas(o, n) => log[i + 1].ret == if log[i].ret == o then n else log[i].ret
            case Load => log[i + 1].ret == log[i].ret
            case _ => true
  {
    if Left(log[i]).Some? {
      assert log[i + 1..i + 1] == [];
      TellsLastAt(v0, log, i, i + 1);
      WrapId(Left(log[i]).value);
    }
  }

  /** In every run over weak LL/SC, whatever the threads do. */
  lemma LlscTells(s0: LlscLoops.State, acts: seq<LlscLoops.Action>)
    requires LlscLoops.Init(s0) && LlscLoops.IsRun(s0, acts)
    ensures TellsInitial(s0.v, LlscLoops.Exec(s0, acts).log) && TellsLast(LlscLoops.Exec(s0, acts).log)
  {
    LlscLoops.InOrderOfTime(s0, acts, 0);
    TellsInitialAlways(s0.v, LlscLoops.Exec(s0, acts).log);
    TellsLastAlways(s0.v, LlscLoops.Exec(s0, acts).log);
  }

  /** In every run over CAS. */
  lemma CasTells(s0: CasLoops.State, acts: seq<CasLoops.Action>)
    requires CasLoops.Init(s0) && CasLoops.IsRun(s0, acts)
    ensures TellsInitial(s0.v, CasLoops.Exec(s0, acts).log) && TellsLast(CasLoops.Exec(s0, acts).log)
  {
    CasLoops.InOrderOfTime(s0, acts, 0);
    TellsInitialAlways(s0.v, CasLoops.Exec(s0, acts).log);
    TellsLastAlways(s0.v, CasLoops.Exec(s0, acts).log);
  }

  /** In every run under the lock. */
  lemma LockTells(s0: LockOps.State, acts: seq<LockOps.Action>)
    requires LockOps.Init(s0) && LockOps.IsRun(s0, acts)
    ensures TellsInitial(s0.v, LockOps.Exec(s0, acts).log) && TellsLast(LockOps.Exec(s0, acts).log)
  {
    LockOps.InOrderOfTime(s0, acts, 0);
    TellsInitialAlways(s0.v, LockOps.Exec(s0, acts).log);
    TellsLastAlways(s0.v, LockOps.Exec(s0, acts).log);
  }
}
