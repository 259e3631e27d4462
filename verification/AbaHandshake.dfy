/**
 The LL/SC ABA test: thread 0 load-links the shared value and waits; thread 1 may change it and change it back;
 then thread 0 tries its store-conditional. Three flags keep the two in step, iteration by iteration.
 */
module AbaHandshake {

  /** Thread 0's next access. */
  datatype Pc0 =
    | Clear0 | Link0 | Pass0 | Wait1 | StoreCond | OkChange | OkShared | FailChange | FailShared | Reset1 | Pass2

  /** Thread 1's next access. */
  datatype Pc1 = Choose | Wait0 | Reset0 | ReadChoice | SetOne | SetZero | Pass1 | Wait2 | Reset2

  /** `iter0` and `iter1` count the finished iterations; `acted` and `seen` log, per iteration, the choice that
      thread 1 acted on and the one thread 0 read; `succeeded` logs whether thread 0's store-conditional succeeded. */
  datatype State = State(
    shared: int,
    pass0: int,
    pass1: int,
    pass2: int,
    change: int,
    reserved: bool,
    pc0: Pc0,
    pc1: Pc1,
    iter0: nat,
    iter1: nat,
    errors: nat,
    acted: seq<int>,
    seen: seq<int>,
    succeeded: seq<bool>
  )

  /** `Step0(spurious)`: the next access of thread 0, the flag for a store-conditional that fails for no reason;
      `Step1(choice)`: the next access of thread 1, the flag for its random choice; `Lose`: the reservation gets
      lost. */
  datatype Action = Step0(spurious: bool) | Step1(choice: bool) | Lose

  predicate Init(s: State) {
    s == State(0, 0, 0, 0, 0, false, Clear0, Choose, 0, 0, 0, [], [], [])
  }

  /** A check of thread 0 that fails is an error. */
  function Error(ok: bool): nat {
    if ok then 0 else 1
  }

  function Do0(s: State, spurious: bool): State {
    match s.pc0
    case Clear0 => s.(shared := 0, reserved := false, pc0 := Link0)
    case Link0 => s.(errors := s.errors + Error(s.shared == 0), reserved := true, pc0 := Pass0)
    case Pass0 => s.(pass0 := 1, pc0 := Wait1)
    case Wait1 => if s.pass1 != 0 then s.(pc0 := StoreCond) else s
    case StoreCond =>
      if s.reserved && !spurious
      then s.(shared := 1, reserved := false, pc0 := OkChange, succeeded := s.succeeded + [true])
      else s.(reserved := false, pc0 := FailChange, succeeded := s.succeeded + [false])
    case OkChange => s.(errors := s.errors + Error(s.change == 0), pc0 := OkShared, seen := s.seen + [s.change])
    case OkShared => s.(errors := s.errors + Error(s.shared == 1), pc0 := Reset1)
    case FailChange => s.(pc0 := FailShared, seen := s.seen + [s.change])
    case FailShared => s.(errors := s.errors + Error(s.shared == 0), pc0 := Reset1)
    case Reset1 => s.(pass1 := 0, pc0 := Pass2)
    case Pass2 => s.(pass2 := 1, pc0 := Clear0, iter0 := s.iter0 + 1)
  }

  function Do1(s: State, choice: bool): State {
    match s.pc1
    case Choose => s.(change := if choice then 1 else 0, pc1 := Wait0)
    case Wait0 => if s.pass0 != 0 then s.(pc1 := Reset0) else s
    case Reset0 => s.(pass0 := 0, pc1 := ReadChoice)
    case ReadChoice => s.(pc1 := if s.change != 0 then SetOne else Pass1, acted := s.acted + [s.change])
    case SetOne => s.(shared := 1, reserved := false, pc1 := SetZero)
    case SetZero => s.(shared := 0, reserved := false, pc1 := Pass1)
    case Pass1 => s.(pass1 := 1, pc1 := Wait2)
    case Wait2 => if s.pass2 != 0 then s.(pc1 := Reset2) else s
    case Reset2 => s.(pass2 := 0, pc1 := Choose, iter1 := s.iter1 + 1)
  }

  function Do(s: State, a: Action): State {
    match a
    case Step0(spurious) => Do0(s, spurious)
    case Step1(choice) => Do1(s, choice)
    case Lose => s.(reserved := false)
  }

  function Exec(s: State, acts: seq<Action>): State
    decreases acts
  {
    if acts == [] then s else Exec(Do(s, acts[0]), acts[1..])
  }

  // ---------------------------------------------------------------- who waits for whom

  /** Thread 0 has not come to its first waiting point, or stands there. */
  predicate Before0(pc: Pc0) {
    pc == Clear0 || pc == Link0 || pc == Pass0 || pc == Wait1
  }

  function Flag(b: bool): int {
    if b then 1 else 0
  }

  /** The four phases of an iteration, and what the flags are in each. */
  ghost predicate InStep(s: State) {
    if s.iter0 == s.iter1 + 1 then
      // thread 1 has not finished the iteration that thread 0 has
      && (s.pc1 == Wait2 || s.pc1 == Reset2) && Before0(s.pc0)
      && s.pass0 == Flag(s.pc0 == Wait1) && s.pass1 == 0 && s.pass2 == 1
    else
      && s.iter0 == s.iter1 && s.pass2 == 0
      && match s.pc1
         case Choose => Before0(s.pc0) && s.pass0 == Flag(s.pc0 == Wait1) && s.pass1 == 0
         case Wait0 => Before0(s.pc0) && s.pass0 == Flag(s.pc0 == Wait1) && s.pass1 == 0
         case Reset0 => s.pc0 == Wait1 && s.pass0 == 1 && s.pass1 == 0
         case Wait2 =>
           && s.pc0 != Clear0 && s.pc0 != Link0 && s.pc0 != Pass0
           && s.pass0 == 0 && s.pass1 == Flag(s.pc0 != Pass2)
         case Reset2 => false
         case _ => s.pc0 == Wait1 && s.pass0 == 0 && s.pass1 == 0
  }

  /** Thread 1 has acted on its choice in the iteration that thread 0 is in. */
  predicate HasActed(s: State) {
    s.iter0 == s.iter1 && (s.pc1 == SetOne || s.pc1 == SetZero || s.pc1 == Pass1 || s.pc1 == Wait2)
  }

  /** Thread 0 has read the choice in its current iteration. */
  predicate HasSeen(pc: Pc0) {
    pc == OkShared || pc == FailShared || pc == Reset1 || pc == Pass2
  }

  predicate HasTried(pc: Pc0) {
    HasSeen(pc) || pc == OkChange || pc == FailChange
  }

  ghost predicate Logs(s: State) {
    && |s.acted| == s.iter0 + (if HasActed(s) then 1 else 0)
    && |s.seen| == s.iter0 + (if HasSeen(s.pc0) then 1 else 0)
    && |s.succeeded| == s.iter0 + (if HasTried(s.pc0) then 1 else 0)
    && s.seen <= s.acted
    && (HasActed(s) ==> s.acted[s.iter0] == s.change)
  }

  /** A store-conditional has succeeded only in iterations in which thread 1 left the value alone. */
  ghost predicate Detected(s: State) {
    forall i :: 0 <= i < |s.succeeded| && s.succeeded[i] ==> i < |s.acted| && s.acted[i] == 0
  }

  /** The shared value and the reservation. */
  ghost predicate Shared(s: State) {
    && (s.pc1 == SetOne || s.pc1 == SetZero ==> s.change != 0)
    && (s.pc0 == Pass0 || s.pc0 == Wait1 || s.pc0 == StoreCond || s.pc0 == Link0 ==> s.shared == Flag(s.pc1 == SetZero))
    && (s.pc0 == FailChange || s.pc0 == FailShared ==> s.shared == 0)
    && (s.pc0 == OkChange || s.pc0 == OkShared ==> s.shared == 1)
    && (s.pc0 == OkChange ==> s.change == 0)
    && (s.reserved && HasActed(s) && s.pc1 != SetOne && (s.pc0 == Wait1 || s.pc0 == StoreCond) ==> s.change == 0)
    && (s.pc0 == OkChange || s.pc0 == OkShared ==> s.succeeded != [] && s.succeeded[|s.succeeded| - 1])
  }

  ghost predicate Inv(s: State) {
    InStep(s) && Logs(s) && Detected(s) && Shared(s) && s.errors == 0
  }

  lemma Step0InStep(s: State, spurious: bool)
    requires InStep(s)
    ensures InStep(Do0(s, spurious))
  {
  }

  lemma Step1InStep(s: State, choice: bool)
    requires InStep(s)
    ensures InStep(Do1(s, choice))
  {
  }

  lemma Step0Logs(s: State, spurious: bool)
    requires InStep(s) && Logs(s)
    ensures Logs(Do0(s, spurious))
  {
    if s.pc0 == OkChange || s.pc0 == FailChange {
      ChoiceLogged(s, spurious);
    } else {
      NoChoiceLogged(s, spurious);
    }
  }

  /** Thread 0 reads the choice that thread 1 has acted on. */
  lemma ChoiceLogged(s: State, spurious: bool)
    requires InStep(s) && Logs(s) && (s.pc0 == OkChange || s.pc0 == FailChange)
    ensures Logs(Do0(s, spurious))
  {
    assert HasActed(s);
  }

  lemma NoChoiceLogged(s: State, spurious: bool)
    requires InStep(s) && Logs(s) && s.pc0 != OkChange && s.pc0 != FailChange
    ensures Logs(Do0(s, spurious))
  {
  }

  lemma Step1Logs(s: State, choice: bool)
    requires InStep(s) && Logs(s)
    ensures Logs(Do1(s, choice))
  {
  }

  lemma Step0Detected(s: State, spurious: bool)
    requires InStep(s) && Logs(s) && Shared(s) && Detected(s)
    ensures Detected(Do0(s, spurious))
  {
    assert s.pc0 == StoreCond ==> HasActed(s);
  }

  lemma Step1Detected(s: State, choice: bool)
    requires Detected(s)
    ensures Detected(Do1(s, choice))
  {
  }

  lemma Step0Shared(s: State, spurious: bool)
    requires InStep(s) && Shared(s)
    ensures Shared(Do0(s, spurious)) && Do0(s, spurious).errors == s.errors
  {
  }

  lemma Step1Shared(s: State, choice: bool)
    requires InStep(s) && Shared(s)
    ensures Shared(Do1(s, choice)) && Do1(s, choice).errors == s.errors
  {
  }

  lemma StepInv(s: State, a: Action)
    requires Inv(s)
    ensures Inv(Do(s, a))
  {
    match a
    case Step0(spurious) =>
      Step0InStep(s, spurious);
      Step0Logs(s, spurious);
      Step0Detected(s, spurious);
      Step0Shared(s, spurious);
    case Step1(choice) =>
      Step1InStep(s, choice);
      Step1Logs(s, choice);
      Step1Detected(s, choice);
      Step1Shared(s, choice);
    case Lose =>
  }

  /** For any number of iterations and any interleaving: the threads are never more than one iteration apart; thread 0
      reads the very choice that thread 1 acted on in the same iteration; a store-conditional succeeds only in
      iterations without a change; and no check of thread 0 fails. */
  lemma {:induction false} Handshake(s: State, acts: seq<Action>)
    requires Inv(s)
    ensures var s' := Exec(s, acts);
            && Inv(s')
            && s'.iter1 <= s'.iter0 <= s'.iter1 + 1
            && s'.seen <= s'.acted
            && (forall i :: 0 <= i < |s'.succeeded| && s'.succeeded[i] ==> i < |s'.acted| && s'.acted[i] == 0)
            && s'.errors == 0
    decreases acts
  {
    if acts != [] {
      StepInv(s, acts[0]);
      Handshake(Do(s, acts[0]), acts[1..]);
    }
  }

  lemma InitInv(s: State)
    requires Init(s)
    ensures Inv(s)
  {
  }

  /** The handshake cannot block: in every reachable state one of the two threads gets on with its next access. */
  lemma NeverBlocked(s: State)
    requires Inv(s)
    ensures Do0(s, false) != s || Do1(s, false) != s
  {
  }

  /** What thread 0 finds where it looks, in every reachable state: a cleared value at its load-link; after a successful
      store-conditional that nothing was changed, and its own value; after a failed one the restored value. */
  lemma WhatIsFound(s: State)
    requires Inv(s)
    ensures s.pc0 == Link0 ==> s.shared == 0
    ensures s.pc0 == OkChange ==> s.change == 0
    ensures s.pc0 == OkShared ==> s.shared == 1
    ensures s.pc0 == FailShared ==> s.shared == 0
  {
  }

  // ---------------------------------------------------------------- one whole iteration

  lemma {:induction false} ExecAppend(s: State, acts: seq<Action>, a: Action)
    ensures Exec(s, acts + [a]) == Do(Exec(s, acts), a)
    decreases acts
  {
    if acts == [] {
      assert ([] + [a])[1..] == [];
      assert Exec(s, [] + [a]) == Exec(Do(s, a), []);
    } else {
      assert (acts + [a])[1..] == acts[1..] + [a];
      ExecAppend(Do(s, acts[0]), acts[1..], a);
    }
  }

  lemma Extend(s0: State, acts: seq<Action>, s: State, a: Action) returns (acts': seq<Action>, s': State)
    requires Exec(s0, acts) == s
    ensures s' == Do(s, a) && Exec(s0, acts') == s' && acts' == acts + [a]
  {
    ExecAppend(s0, acts, a);
    acts', s' := acts + [a], Do(s, a);
  }

  /** No reservation gets lost, and no store-conditional fails for no reason. */
  predicate Faultless(acts: seq<Action>) {
    forall a <- acts :: a != Lose && a != Step0(true)
  }

  /** Thread 0 clears the value, load-links it and waits. */
  lemma LinkAndWait(s0: State, acts: seq<Action>, s: State) returns (acts': seq<Action>, s': State)
    requires Exec(s0, acts) == s && s.pc0 == Clear0 && Faultless(acts)
    ensures Exec(s0, acts') == s' && Faultless(acts')
    ensures s' == s.(shared := 0, reserved := true, pass0 := 1, pc0 := Wait1)
  {
    acts', s' := Extend(s0, acts, s, Step0(false));
    acts', s' := Extend(s0, acts', s', Step0(false));
    acts', s' := Extend(s0, acts', s', Step0(false));
  }

  /** Thread 1 chooses and sees that thread 0 has load-linked. */
  lemma ChooseAndSee(s0: State, acts: seq<Action>, s: State, choice: bool) returns (acts': seq<Action>, s': State)
    requires Exec(s0, acts) == s && s.pc1 == Choose && s.pass0 == 1 && Faultless(acts)
    ensures Exec(s0, acts') == s' && Faultless(acts')
    ensures s' == s.(change := Flag(choice), pass0 := 0, pc1 := ReadChoice)
  {
    acts', s' := Extend(s0, acts, s, Step1(choice));
    acts', s' := Extend(s0, acts', s', Step1(choice));
    acts', s' := Extend(s0, acts', s', Step1(choice));
  }

  /** Thread 1 acts on its choice and passes point 1. */
  lemma ActAndPass(s0: State, acts: seq<Action>, s: State, choice: bool) returns (acts': seq<Action>, s': State)
    requires Exec(s0, acts) == s && s.pc1 == ReadChoice && s.change == Flag(choice) && s.shared == 0 && Faultless(acts)
    ensures Exec(s0, acts') == s' && Faultless(acts')
    ensures s' == s.(reserved := s.reserved && !choice, pass1 := 1, pc1 := Wait2, acted := s.acted + [Flag(choice)])
  {
    acts', s' := Extend(s0, acts, s, Step1(choice));
    if choice {
      acts', s' := Extend(s0, acts', s', Step1(choice));
      acts', s' := Extend(s0, acts', s', Step1(choice));
    }
    acts', s' := Extend(s0, acts', s', Step1(choice));
  }

  /** Thread 0 tries its store-conditional, checks, and passes point 2. */
  lemma StoreAndPass(s0: State, acts: seq<Action>, s: State, choice: bool) returns (acts': seq<Action>, s': State)
    requires Exec(s0, acts) == s && s.pc0 == Wait1 && s.pass1 == 1 && s.shared == 0 && Faultless(acts)
    requires s.reserved == !choice && s.change == Flag(choice)
    ensures Exec(s0, acts') == s' && Faultless(acts')
    ensures s' == s.(shared := Flag(!choice), reserved := false, pass1 := 0, pass2 := 1, pc0 := Clear0,
                     iter0 := s.iter0 + 1, seen := s.seen + [Flag(choice)], succeeded := s.succeeded + [!choice])
  {
    acts', s' := Extend(s0, acts, s, Step0(false));
    acts', s' := Extend(s0, acts', s', Step0(false));
    acts', s' := Extend(s0, acts', s', Step0(false));
    acts', s' := Extend(s0, acts', s', Step0(false));
    acts', s' := Extend(s0, acts', s', Step0(false));
    acts', s' := Extend(s0, acts', s', Step0(false));
  }

  /** Thread 1 sees that thread 0 is through. */
  lemma SeeAndReset(s0: State, acts: seq<Action>, s: State) returns (acts': seq<Action>, s': State)
    requires Exec(s0, acts) == s && s.pc1 == Wait2 && s.pass2 == 1 && Faultless(acts)
    ensures Exec(s0, acts') == s' && Faultless(acts')
    ensures s' == s.(pass2 := 0, pc1 := Choose, iter1 := s.iter1 + 1)
  {
    acts', s' := Extend(s0, acts, s, Step1(false));
    acts', s' := Extend(s0, acts', s', Step1(false));
  }

  lemma Iterate(s: State, choice: bool) returns (acts: seq<Action>, s': State)
    requires s.pc0 == Clear0 && s.pc1 == Choose
    ensures Exec(s, acts) == s' && Faultless(acts)
    ensures s'.pc0 == Clear0 && s'.pc1 == Choose && s'.iter0 == s.iter0 + 1 && s'.iter1 == s.iter1 + 1
    ensures s'.acted == s.acted + [Flag(choice)] && s'.seen == s.seen + [Flag(choice)]
    ensures s'.succeeded == s.succeeded + [!choice]
  {
    acts, s' := LinkAndWait(s, [], s);
    acts, s' := ChooseAndSee(s, acts, s', choice);
    acts, s' := ActAndPass(s, acts, s', choice);
    acts, s' := StoreAndPass(s, acts, s', choice);
    acts, s' := SeeAndReset(s, acts, s');
  }

  /** From the start of an iteration of both threads, whatever thread 1 chooses, a faultless run takes both to the
      start of the next one: thread 0 has seen the choice, and its store-conditional has succeeded if and only
      if the value was left alone. */
  lemma WholeIteration(s: State, choice: bool) returns (acts: seq<Action>)
    requires Inv(s) && s.pc0 == Clear0 && s.pc1 == Choose
    ensures Faultless(acts)
    ensures var s' := Exec(s, acts);
            && Inv(s') && s'.pc0 == Clear0 && s'.pc1 == Choose
            && s'.iter0 == s.iter0 + 1 && s'.iter1 == s.iter1 + 1 && s'.errors == 0
            && s'.acted == s.acted + [Flag(choice)] && s'.seen == s.seen + [Flag(choice)]
            && s'.succeeded == s.succeeded + [!choice]
  {
    var s';
    acts, s' := Iterate(s, choice);
    Handshake(s, acts);
  }
}
