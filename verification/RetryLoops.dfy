/**
 The retry loops as one thread runs them, statement by statement, while other threads operate on the same word
 between its accesses. What the others do, and which store-conditionals fail for no reason, is the environment
 that each method is given; the loops run until they succeed or the environment's script ends. Each contract says
 exactly what is then in the word, in the result and in the history.
 */
module RetryLoops {
  import opened AtomicSpec
  import opened Emulated
  import opened Options

  /** The thread that runs the loop, and all the others. */
  const ME: Tid := 0
  const OTHERS: Tid := 1

  // ---------------------------------------------------------------- what the others do

  /** What the others do before the access that reads, and between it and the access that stores. */
  datatype Turn = Turn(before: seq<Op>, between: seq<Op>, spurious: bool)

  /** The word after these operations, one after the other. */
  function Final(v: Int32, ops: seq<Op>): Int32 {
    if ops == [] then v else After(ops[|ops| - 1], Final(v, ops[..|ops| - 1]))
  }

  /** The history of these operations of the others, from the word v. */
  function Entries(v: Int32, ops: seq<Op>): seq<Effect> {
    if ops == [] then []
    else
      var before, op := ops[..|ops| - 1], ops[|ops| - 1];
      Entries(v, before) + [Effect(OTHERS, op, Result(op, Final(v, before)))]
  }

  lemma {:induction false} EntriesAppend(v: Int32, a: seq<Op>, b: seq<Op>)
    ensures Final(v, a + b) == Final(Final(v, a), b)
    ensures Entries(v, a + b) == Entries(v, a) + Entries(Final(v, a), b)
    decreases |b|
  {
    if b == [] {
      assert a + b == a;
    } else {
      assert (a + b)[..|a + b| - 1] == a + b[..|b| - 1];
      EntriesAppend(v, a, b[..|b| - 1]);
    }
  }

  lemma EntriesStep(v: Int32, ops: seq<Op>, op: Op)
    ensures Final(v, ops + [op]) == After(op, Final(v, ops))
    ensures Entries(v, ops + [op]) == Entries(v, ops) + [Effect(OTHERS, op, Result(op, Final(v, ops)))]
  {
    assert (ops + [op])[..|ops|] == ops;
  }

  /** The others' operations in these rounds, in order. */
  function OpsOf(rounds: seq<Turn>): seq<Op> {
    if rounds == [] then []
    else OpsOf(rounds[..|rounds| - 1]) + rounds[|rounds| - 1].before + rounds[|rounds| - 1].between
  }

  function Flat(rounds: seq<seq<Op>>): seq<Op> {
    if rounds == [] then [] else Flat(rounds[..|rounds| - 1]) + rounds[|rounds| - 1]
  }

  predicate OnlyLoads(ops: seq<Op>) {
    forall i :: 0 <= i < |ops| ==> ops[i].Load?
  }

  /** Nobody stores between the load-link and the store-conditional, and that does not fail for no reason. */
  predicate Undisturbed(turn: Turn) {
    OnlyLoads(turn.between) && !turn.spurious
  }

  lemma {:induction false} LoadsKeep(v: Int32, ops: seq<Op>)
    requires OnlyLoads(ops)
    ensures Final(v, ops) == v
    decreases |ops|
  {
    if ops != [] {
      LoadsKeep(v, ops[..|ops| - 1]);
    }
  }

  // ---------------------------------------------------------------- in which round a loop ends

  /** The first undisturbed round, or the number of rounds if there is none. */
  function FirstUndisturbed(env: seq<Turn>): (n: nat)
    ensures n <= |env| && (forall i :: 0 <= i < n ==> !Undisturbed(env[i])) && (n < |env| ==> Undisturbed(env[n]))
  {
    if env == [] || Undisturbed(env[0]) then 0 else 1 + FirstUndisturbed(env[1..])
  }

  /** The value that round n of an LL/SC loop reads. */
  function ReadIn(v: Int32, env: seq<Turn>, n: nat): Int32
    requires n < |env|
  {
    Final(v, OpsOf(env[..n]) + env[n].before)
  }

  /** A compare-and-swap loop on LL/SC ends when it reads something else, or is undisturbed. */
  predicate CasEnds(v: Int32, oldv: Int32, env: seq<Turn>, n: nat)
    requires n < |env|
  {
    ReadIn(v, env, n) != oldv || Undisturbed(env[n])
  }

  function FirstCasEnd(v: Int32, oldv: Int32, env: seq<Turn>, from: nat): (n: nat)
    requires from <= |env|
    ensures from <= n <= |env| && (forall i :: from <= i < n ==> !CasEnds(v, oldv, env, i))
    ensures n < |env| ==> CasEnds(v, oldv, env, n)
    decreases |env| - from
  {
    if from == |env| || CasEnds(v, oldv, env, from) then from else FirstCasEnd(v, oldv, env, from + 1)
  }

  /** An attempt of a loop on CAS succeeds if it finds the value that the attempt before has left, even if the word has
      changed and changed back in between. */
  predicate SameAgain(v: Int32, env: seq<seq<Op>>, n: nat)
    requires n < |env|
  {
    Final(v, Flat(env[..n + 1])) == Final(v, Flat(env[..n]))
  }

  function FirstSame(v: Int32, env: seq<seq<Op>>, from: nat): (n: nat)
    requires from <= |env|
    ensures from <= n <= |env| && (forall i :: from <= i < n ==> !SameAgain(v, env, i))
    ensures n < |env| ==> SameAgain(v, env, n)
    decreases |env| - from
  {
    if from == |env| || SameAgain(v, env, from) then from else FirstSame(v, env, from + 1)
  }

  // ---------------------------------------------------------------- the word

  predicate Stores(op: Op) {
    !op.Load?
  }

  /** Word and history, before or after a call. */
  datatype Moment = Moment(v: Int32, log: seq<Effect>)

  /** One operation has taken effect, done by t. */
  ghost predicate Happened(was: Moment, now: Moment, op: Op, t: Tid) {
    now == Moment(After(op, was.v), was.log + [Effect(t, op, Result(op, was.v))])
  }

  /** The others have done these operations, and the call has had no effect. */
  ghost predicate NoEffect(was: Moment, now: Moment, ops: seq<Op>) {
    now.v == Final(was.v, ops) && now.log == was.log + Entries(was.v, ops)
  }

  /** The others have done these operations; then the call has read r and taken effect, once, as `op`. */
  ghost predicate TookEffect(was: Moment, now: Moment, ops: seq<Op>, op: Op, r: Int32) {
    && r == Final(was.v, ops)
    && now.v == After(op, r)
    && now.log == was.log + Entries(was.v, ops) + [Effect(ME, op, Result(op, r))]
  }

  /** The others' next operation. */
  lemma NoEffectStep(was: Moment, mid: Moment, ops: seq<Op>, i: nat)
    requires i < |ops| && NoEffect(was, mid, ops[..i])
    ensures forall now :: Happened(mid, now, ops[i], OTHERS) ==> NoEffect(was, now, ops[..i + 1])
    ensures OnlyLoads(ops[..i + 1]) <==> OnlyLoads(ops[..i]) && ops[i].Load?
  {
    assert ops[..i + 1] == ops[..i] + [ops[i]];
    EntriesStep(was.v, ops[..i], ops[i]);
  }

  lemma NoEffectMore(was: Moment, mid: Moment, now: Moment, a: seq<Op>, b: seq<Op>)
    requires NoEffect(was, mid, a) && NoEffect(mid, now, b)
    ensures NoEffect(was, now, a + b)
  {
    EntriesAppend(was.v, a, b);
  }

  /** The effect comes after what the others have done. */
  lemma EffectAfter(was: Moment, mid: Moment, now: Moment, ops: seq<Op>, op: Op, r: Int32)
    requires NoEffect(was, mid, ops) && Happened(mid, now, op, ME) && r == mid.v
    ensures TookEffect(was, now, ops, op, r)
  {
  }

  lemma EffectLater(was: Moment, mid: Moment, now: Moment, a: seq<Op>, b: seq<Op>, op: Op, r: Int32)
    requires NoEffect(was, mid, a) && TookEffect(mid, now, b, op, r)
    ensures TookEffect(was, now, a + b, op, r)
  {
    EntriesAppend(was.v, a, b);
    assert was.log + (Entries(was.v, a) + Entries(mid.v, b)) == (was.log + Entries(was.v, a)) + Entries(mid.v, b);
  }

  lemma {:induction false} OthersOwnNothing(v: Int32, ops: seq<Op>)
    ensures Own(Entries(v, ops), ME) == []
    decreases |ops|
  {
    if ops != [] {
      OthersOwnNothing(v, ops[..|ops| - 1]);
      assert Entries(v, ops)[..|ops| - 1] == Entries(v, ops[..|ops| - 1]) by {
        EntriesLength(v, ops[..|ops| - 1]);
      }
    }
  }

  lemma {:induction false} EntriesLength(v: Int32, ops: seq<Op>)
    ensures |Entries(v, ops)| == |ops|
    decreases |ops|
  {
    if ops != [] {
      EntriesLength(v, ops[..|ops| - 1]);
    }
  }

  lemma {:induction false} OwnConcat(a: seq<Effect>, b: seq<Effect>, t: Tid)
    ensures Own(a + b, t) == Own(a, t) + Own(b, t)
    decreases |b|
  {
    if b == [] {
      assert a + b == a;
    } else {
      assert (a + b)[..|a + b| - 1] == a + b[..|b| - 1];
      OwnConcat(a, b[..|b| - 1], t);
    }
  }

  /** Of the calling thread's operations, the history has got one more. */
  lemma OnlyOnce(was: Moment, now: Moment, ops: seq<Op>, op: Op, r: Int32)
    requires TookEffect(was, now, ops, op, r)
    ensures Own(now.log, ME) == Own(was.log, ME) + [(op, Result(op, r))]
  {
    OthersOwnNothing(was.v, ops);
    OwnConcat(was.log, Entries(was.v, ops), ME);
    OwnAppend(was.log + Entries(was.v, ops), Effect(ME, op, Result(op, r)), ME);
  }

  lemma OpsOfNext(env: seq<Turn>, n: nat)
    requires n < |env|
    ensures OpsOf(env[..n + 1]) == OpsOf(env[..n]) + env[n].before + env[n].between
  {
    assert env[..n + 1][..n] == env[..n];
  }

  lemma FlatNext(env: seq<seq<Op>>, n: nat)
    requires n < |env|
    ensures Flat(env[..n + 1]) == Flat(env[..n]) + env[n]
  {
    assert env[..n + 1][..n] == env[..n];
  }

  class Word {
    var v: Int32
    var reserved: bool
    ghost var initial: Int32
    ghost var log: seq<Effect>

    /** The history of everybody's operations is one of the reference, and ends in the present value. */
    ghost predicate Valid()
      reads this
    {
      Legal(initial, log) && v == Replay(initial, log)
    }

    ghost function Now(): Moment
      reads this
    {
      Moment(v, log)
    }

    constructor (v: Int32)
      ensures Valid() && this.v == v && log == [] && initial == v
    {
      this.v, reserved, initial, log := v, false, v, [];
    }

    /** The operation takes effect, done by t, and leaves x. */
    method Put(x: Int32, ghost op: Op, ghost t: Tid)
      requires Valid() && x == After(op, v)
      modifies this`v, this`log
      ensures Valid() && Happened(old(Now()), Now(), op, t)
    {
      LegalAppend(initial, log, Effect(t, op, Result(op, v)));
      log := log + [Effect(t, op, Result(op, v))];
      v := x;
    }

    /** Other threads operate on the word; a store of any of them ends the reservation. */
    method Others(ops: seq<Op>)
      requires Valid()
      modifies this
      ensures Valid() && initial == old(initial)
      ensures NoEffect(old(Now()), Now(), ops)
      ensures reserved <==> old(reserved) && OnlyLoads(ops)
    {
      for i := 0 to |ops|
        invariant Valid() && initial == old(initial)
        invariant NoEffect(old(Now()), Now(), ops[..i])
        invariant reserved <==> old(reserved) && OnlyLoads(ops[..i])
      {
        NoEffectStep(old(Now()), Now(), ops, i);
        Put(After(ops[i], v), ops[i], OTHERS);
        if Stores(ops[i]) {
          reserved := false;
        }
      }
      assert ops[..|ops|] == ops;
    }

    /** Reads the word and reserves it, after what the others do before. */
    method LoadLinked(before: seq<Op>) returns (val: Int32)
      requires Valid()
      modifies this
      ensures Valid() && initial == old(initial)
      ensures NoEffect(old(Now()), Now(), before) && val == v && reserved
    {
      Others(before);
      reserved := true;
      return v;
    }

    /** After what the others do in between, stores if the reservation still stands and nothing spurious happens;
        then the caller's operation `op` has taken effect. */
    method StoreConditional(x: Int32, between: seq<Op>, spurious: bool, ghost op: Op) returns (ok: bool)
      requires Valid() && reserved && x == After(op, v)
      modifies this
      ensures Valid() && initial == old(initial)
      ensures ok <==> OnlyLoads(between) && !spurious
      ensures if ok then TookEffect(old(Now()), Now(), between, op, old(v)) else NoEffect(old(Now()), Now(), between)
    {
      Others(between);
      ok := reserved && !spurious;
      reserved := false;
      if ok {
        LoadsKeep(old(v), between);
        Put(x, op, ME);
      }
    }

    /** The atomic compare-and-swap; if it succeeds, the caller's operation `op` has taken effect. */
    method TryCas(cmp: Int32, x: Int32, ghost op: Op) returns (prev: Int32)
      requires Valid() && x == After(op, cmp)
      modifies this
      ensures Valid() && initial == old(initial) && prev == old(v)
      ensures if prev == cmp then Happened(old(Now()), Now(), op, ME) else Now() == old(Now())
    {
      prev := v;
      if prev == cmp {
        Put(x, op, ME);
        reserved := false;
      }
    }

    /** The compare-and-swap after what the others do before. */
    method CompareAndSwap(cmp: Int32, x: Int32, before: seq<Op>, ghost op: Op) returns (prev: Int32)
      requires Valid() && x == After(op, cmp)
      modifies this
      ensures Valid() && initial == old(initial) && prev == Final(old(v), before)
      ensures if prev == cmp then TookEffect(old(Now()), Now(), before, op, prev)
              else NoEffect(old(Now()), Now(), before)
    {
      Others(before);
      ghost var mid := Now();
      prev := TryCas(cmp, x, op);
      if prev == cmp {
        EffectAfter(old(Now()), mid, Now(), before, op, prev);
      }
    }

    /** A load-link that is the whole of a compare-and-swap that mismatches. */
    ghost method Mismatch(op: Op)
      requires Valid() && After(op, v) == v
      modifies this`log
      ensures Valid() && Happened(old(Now()), Now(), op, ME)
    {
      LegalAppend(initial, log, Effect(ME, op, Result(op, v)));
      log := log + [Effect(ME, op, Result(op, v))];
    }
  }

  // ---------------------------------------------------------------- the loops on LL/SC

  /** The outcome of a loop on LL/SC that stores whatever it has read: it takes effect in the first undisturbed
      round. */
  ghost predicate EndsUndisturbed(was: Moment, now: Moment, env: seq<Turn>, op: Op, r: Option<Int32>) {
    var n := FirstUndisturbed(env);
    if n < |env| then
      r.Some? && TookEffect(was, now, OpsOf(env[..n]) + env[n].before + env[n].between, op, r.value)
    else
      r.None? && NoEffect(was, now, OpsOf(env))
  }

  /** Left alone in its first round, the call takes effect on the value that it has found. */
  lemma LeftAlone(was: Moment, now: Moment, env: seq<Turn>, op: Op, r: Option<Int32>)
    requires EndsUndisturbed(was, now, env, op, r) && env != [] && env[0].before == [] && Undisturbed(env[0])
    ensures r == Some(was.v) && now.v == After(op, was.v)
  {
    assert env[..0] == [];
    assert OpsOf(env[..0]) + env[0].before + env[0].between == env[0].between;
    LoadsKeep(was.v, env[0].between);
  }

  /** After i rounds the call has had no effect, as none of them was undisturbed. */
  ghost predicate Looping(was: Moment, now: Moment, env: seq<Turn>, i: nat)
    requires i <= |env|
  {
    NoEffect(was, now, OpsOf(env[..i])) && forall k :: 0 <= k < i ==> !Undisturbed(env[k])
  }

  lemma RoundEnds(was: Moment, start: Moment, read: Moment, now: Moment, env: seq<Turn>, i: nat, op: Op, r: Int32)
    requires i < |env| && Undisturbed(env[i]) && Looping(was, start, env, i)
    requires NoEffect(start, read, env[i].before) && TookEffect(read, now, env[i].between, op, r)
    ensures EndsUndisturbed(was, now, env, op, Some(r))
  {
    NoEffectMore(was, start, read, OpsOf(env[..i]), env[i].before);
    EffectLater(was, read, now, OpsOf(env[..i]) + env[i].before, env[i].between, op, r);
    assert FirstUndisturbed(env) == i;
  }

  lemma RoundFails(was: Moment, start: Moment, read: Moment, now: Moment, env: seq<Turn>, i: nat)
    requires i < |env| && !Undisturbed(env[i]) && Looping(was, start, env, i)
    requires NoEffect(start, read, env[i].before) && NoEffect(read, now, env[i].between)
    ensures Looping(was, now, env, i + 1)
  {
    OpsOfNext(env, i);
    NoEffectMore(was, start, read, OpsOf(env[..i]), env[i].before);
    NoEffectMore(was, read, now, OpsOf(env[..i]) + env[i].before, env[i].between);
  }

  /** The loop is still looping when the script ends. */
  lemma StillLooping(was: Moment, now: Moment, env: seq<Turn>, op: Op)
    requires Looping(was, now, env, |env|)
    ensures EndsUndisturbed(was, now, env, op, None)
  {
    assert env[..|env|] == env;
  }

  lemma AddStores(op: Op, val: Int32, prev: Int32)
    requires IsRmw(op) && KernelOf(op) == KAdd(val)
    ensures Wrap(prev + val) == After(op, prev)
  {
    KernelMeetsReference(op, prev);
  }

  /** The fetch-and-add loop; `op` is the operation that was called, which this loop serves. */
  method FetchAndAddByLlsc(w: Word, val: Int32, ghost op: Op, env: seq<Turn>) returns (r: Option<Int32>)
    requires w.Valid() && IsRmw(op) && KernelOf(op) == KAdd(val)
    modifies w
    ensures w.Valid() && w.initial == old(w.initial)
    ensures EndsUndisturbed(old(w.Now()), w.Now(), env, op, r)
  {
    for i := 0 to |env|
      invariant w.Valid() && w.initial == old(w.initial)
      invariant Looping(old(w.Now()), w.Now(), env, i)
    {
      ghost var start := w.Now();
      var prev := w.LoadLinked(env[i].before);
      ghost var read := w.Now();
      AddStores(op, val, prev);
      var ok := w.StoreConditional(Wrap(prev + val), env[i].between, env[i].spurious, op);
      if ok {
        RoundEnds(old(w.Now()), start, read, w.Now(), env, i, op, prev);
        return Some(prev);
      }
      RoundFails(old(w.Now()), start, read, w.Now(), env, i);
    }
    StillLooping(old(w.Now()), w.Now(), env, op);
    return None;
  }

  /** The swap loop. */
  method SwapByLlsc(w: Word, val: Int32, env: seq<Turn>) returns (r: Option<Int32>)
    requires w.Valid()
    modifies w
    ensures w.Valid() && w.initial == old(w.initial)
    ensures EndsUndisturbed(old(w.Now()), w.Now(), env, Swap(val), r)
  {
    for i := 0 to |env|
      invariant w.Valid() && w.initial == old(w.initial)
      invariant Looping(old(w.Now()), w.Now(), env, i)
    {
      ghost var start := w.Now();
      var prev := w.LoadLinked(env[i].before);
      ghost var read := w.Now();
      var ok := w.StoreConditional(val, env[i].between, env[i].spurious, Swap(val));
      if ok {
        RoundEnds(old(w.Now()), start, read, w.Now(), env, i, Swap(val), prev);
        return Some(prev);
      }
      RoundFails(old(w.Now()), start, read, w.Now(), env, i);
    }
    StillLooping(old(w.Now()), w.Now(), env, Swap(val));
    return None;
  }

  /** The outcome of the compare-and-swap loop on LL/SC: it takes effect in the first round in which it reads something
      else, at the load-link, or is undisturbed, at the store-conditional. */
  ghost predicate CasOutcome(was: Moment, now: Moment, oldv: Int32, newv: Int32, env: seq<Turn>, r: Option<Int32>) {
    var n := FirstCasEnd(was.v, oldv, env, 0);
    if n == |env| then
      r.None? && NoEffect(was, now, OpsOf(env))
    else
      r.Some? && TookEffect(was, now, OpsTillEnd(was.v, oldv, env, n), Cas(oldv, newv), r.value)
  }

  /** What the others have done when round n ends. */
  function OpsTillEnd(v: Int32, oldv: Int32, env: seq<Turn>, n: nat): seq<Op>
    requires n < |env|
  {
    OpsOf(env[..n]) + env[n].before + if ReadIn(v, env, n) == oldv then env[n].between else []
  }

  ghost predicate CasLooping(was: Moment, now: Moment, oldv: Int32, env: seq<Turn>, i: nat)
    requires i <= |env|
  {
    NoEffect(was, now, OpsOf(env[..i])) && forall k :: 0 <= k < i ==> !CasEnds(was.v, oldv, env, k)
  }

  lemma CasReads(was: Moment, start: Moment, read: Moment, oldv: Int32, env: seq<Turn>, i: nat)
    requires i < |env| && CasLooping(was, start, oldv, env, i) && NoEffect(start, read, env[i].before)
    ensures ReadIn(was.v, env, i) == read.v && NoEffect(was, read, OpsOf(env[..i]) + env[i].before)
    ensures CasEnds(was.v, oldv, env, i) ==> FirstCasEnd(was.v, oldv, env, 0) == i
  {
    NoEffectMore(was, start, read, OpsOf(env[..i]), env[i].before);
  }

  lemma CasMismatches(was: Moment, start: Moment, read: Moment, now: Moment, oldv: Int32, newv: Int32,
                      env: seq<Turn>, i: nat)
    requires i < |env| && CasLooping(was, start, oldv, env, i) && NoEffect(start, read, env[i].before)
    requires read.v != oldv && Happened(read, now, Cas(oldv, newv), ME)
    ensures CasOutcome(was, now, oldv, newv, env, Some(read.v))
  {
    CasReads(was, start, read, oldv, env, i);
    var ops := OpsOf(env[..i]) + env[i].before;
    EffectAfter(was, read, now, ops, Cas(oldv, newv), read.v);
    assert ops + [] == ops;
  }

  lemma CasStores(was: Moment, start: Moment, read: Moment, now: Moment, oldv: Int32, newv: Int32,
                  env: seq<Turn>, i: nat)
    requires i < |env| && CasLooping(was, start, oldv, env, i) && NoEffect(start, read, env[i].before)
    requires read.v == oldv && Undisturbed(env[i]) && TookEffect(read, now, env[i].between, Cas(oldv, newv), oldv)
    ensures CasOutcome(was, now, oldv, newv, env, Some(oldv))
  {
    CasReads(was, start, read, oldv, env, i);
    EffectLater(was, read, now, OpsOf(env[..i]) + env[i].before, env[i].between, Cas(oldv, newv), oldv);
  }

  lemma CasFails(was: Moment, start: Moment, read: Moment, now: Moment, oldv: Int32, env: seq<Turn>, i: nat)
    requires i < |env| && CasLooping(was, start, oldv, env, i) && NoEffect(start, read, env[i].before)
    requires read.v == oldv && !Undisturbed(env[i]) && NoEffect(read, now, env[i].between)
    ensures CasLooping(was, now, oldv, env, i + 1)
  {
    CasReads(was, start, read, oldv, env, i);
    OpsOfNext(env, i);
    NoEffectMore(was, read, now, OpsOf(env[..i]) + env[i].before, env[i].between);
  }

  lemma CasStillLooping(was: Moment, now: Moment, oldv: Int32, newv: Int32, env: seq<Turn>)
    requires CasLooping(was, now, oldv, env, |env|)
    ensures CasOutcome(was, now, oldv, newv, env, None)
  {
    assert env[..|env|] == env;
  }

  /** The compare-and-swap loop retries only while it reads the expected value and fails to store. */
  method CasByLlsc(w: Word, oldv: Int32, newv: Int32, env: seq<Turn>) returns (r: Option<Int32>)
    requires w.Valid()
    modifies w
    ensures w.Valid() && w.initial == old(w.initial)
    ensures CasOutcome(old(w.Now()), w.Now(), oldv, newv, env, r)
  {
    for i := 0 to |env|
      invariant w.Valid() && w.initial == old(w.initial)
      invariant CasLooping(old(w.Now()), w.Now(), oldv, env, i)
    {
      ghost var start := w.Now();
      var prev := w.LoadLinked(env[i].before);
      ghost var read := w.Now();
      if prev != oldv {
        w.Mismatch(Cas(oldv, newv));
        CasMismatches(old(w.Now()), start, read, w.Now(), oldv, newv, env, i);
        return Some(prev);
      }
      var ok := w.StoreConditional(newv, env[i].between, env[i].spurious, Cas(oldv, newv));
      if ok {
        CasStores(old(w.Now()), start, read, w.Now(), oldv, newv, env, i);
        return Some(prev);
      }
      CasFails(old(w.Now()), start, read, w.Now(), oldv, env, i);
    }
    CasStillLooping(old(w.Now()), w.Now(), oldv, newv, env);
    return None;
  }

  /** Left alone in its first round, the compare-and-swap finishes with what it has found. */
  lemma CasLeftAlone(was: Moment, now: Moment, oldv: Int32, newv: Int32, env: seq<Turn>, r: Option<Int32>)
    requires CasOutcome(was, now, oldv, newv, env, r) && env != [] && env[0].before == [] && Undisturbed(env[0])
    ensures r == Some(was.v) && now.v == if was.v == oldv then newv else was.v
  {
    assert env[..0] == [];
    assert OpsOf(env[..0]) + env[0].before == [];
    assert CasEnds(was.v, oldv, env, 0) && FirstCasEnd(was.v, oldv, env, 0) == 0;
    assert OpsTillEnd(was.v, oldv, env, 0) == if was.v == oldv then env[0].between else [];
    LoadsKeep(was.v, env[0].between);
  }

  // ---------------------------------------------------------------- thin calls onto the loop

  /** What a call makes of the loop's result is the reference's result of the operation. */
  ghost predicate Returns(was: Moment, now: Moment, env: seq<Turn>, op: Op, ret: Option<Int32>) {
    exists r: Option<Int32> ::
      EndsUndisturbed(was, now, env, op, r) && ret == if r.Some? then Some(Result(op, r.value)) else None
  }

  method DecrAndTestByLlsc(w: Word, env: seq<Turn>) returns (ret: Option<bool>)
    requires w.Valid()
    modifies w
    ensures w.Valid() && w.initial == old(w.initial)
    ensures Returns(old(w.Now()), w.Now(), env, DecrAndTest,
                    if ret.Some? then Some(if ret.value then 1 else 0) else None)
  {
    var prev := FetchAndAddByLlsc(w, -1, DecrAndTest, env);
    if prev.None? {
      return None;
    }
    KernelMeetsReference(DecrAndTest, prev.value);
    return Some(prev.value == 1);
  }

  method IncrByLlsc(w: Word, env: seq<Turn>) returns (done: bool)
    requires w.Valid()
    modifies w
    ensures w.Valid() && w.initial == old(w.initial)
    ensures Returns(old(w.Now()), w.Now(), env, Incr, if done then Some(0) else None)
  {
    var prev := FetchAndAddByLlsc(w, 1, Incr, env);
    return prev.Some?;
  }

  // ---------------------------------------------------------------- the loops on CAS

  /** The outcome of a loop on CAS: it takes effect in the first attempt that finds the value of the attempt before. */
  ghost predicate EndsOnSame(was: Moment, now: Moment, env: seq<seq<Op>>, op: Op, r: Option<Int32>) {
    var n := FirstSame(was.v, env, 0);
    if n < |env| then r.Some? && TookEffect(was, now, Flat(env[..n + 1]), op, r.value)
    else r.None? && NoEffect(was, now, Flat(env))
  }

  ghost predicate Attempting(was: Moment, now: Moment, env: seq<seq<Op>>, i: nat)
    requires i <= |env|
  {
    NoEffect(was, now, Flat(env[..i])) && forall k :: 0 <= k < i ==> !SameAgain(was.v, env, k)
  }

  lemma AttemptEnds(was: Moment, start: Moment, now: Moment, env: seq<seq<Op>>, i: nat, op: Op)
    requires i < |env| && Attempting(was, start, env, i) && TookEffect(start, now, env[i], op, start.v)
    ensures EndsOnSame(was, now, env, op, Some(start.v))
  {
    FlatNext(env, i);
    EffectLater(was, start, now, Flat(env[..i]), env[i], op, start.v);
    assert SameAgain(was.v, env, i) && FirstSame(was.v, env, 0) == i;
  }

  lemma AttemptFails(was: Moment, start: Moment, now: Moment, env: seq<seq<Op>>, i: nat)
    requires i < |env| && Attempting(was, start, env, i) && NoEffect(start, now, env[i]) && now.v != start.v
    ensures Attempting(was, now, env, i + 1)
  {
    FlatNext(env, i);
    NoEffectMore(was, start, now, Flat(env[..i]), env[i]);
  }

  lemma StillAttempting(was: Moment, now: Moment, env: seq<seq<Op>>, op: Op)
    requires Attempting(was, now, env, |env|)
    ensures EndsOnSame(was, now, env, op, None)
  {
    assert env[..|env|] == env;
  }

  /** Left alone before its first attempt, the call takes effect on the value that it has found. */
  lemma CasLoopLeftAlone(was: Moment, now: Moment, env: seq<seq<Op>>, op: Op, r: Option<Int32>)
    requires EndsOnSame(was, now, env, op, r) && env != [] && OnlyLoads(env[0])
    ensures r == Some(was.v) && now.v == After(op, was.v)
  {
    FirstAlone(was.v, env);
    LoadsKeep(was.v, env[0]);
  }

  lemma FirstAlone(v: Int32, env: seq<seq<Op>>)
    requires env != [] && OnlyLoads(env[0])
    ensures FirstSame(v, env, 0) == 0 && Flat(env[..1]) == env[0]
  {
    FlatNext(env, 0);
    assert env[..0 + 1] == env[..1] && Flat(env[..0]) == [] && [] + env[0] == env[0];
    LoadsKeep(v, env[0]);
    assert SameAgain(v, env, 0);
  }

  /** The fetch-and-add loop on compare-and-swap; env[i] is what others do before the i-th attempt. */
  method FetchAndAddByCas(w: Word, val: Int32, ghost op: Op, env: seq<seq<Op>>) returns (r: Option<Int32>)
    requires w.Valid() && IsRmw(op) && KernelOf(op) == KAdd(val)
    modifies w
    ensures w.Valid() && w.initial == old(w.initial)
    ensures EndsOnSame(old(w.Now()), w.Now(), env, op, r)
  {
    var prev := w.v;
    for i := 0 to |env|
      invariant w.Valid() && w.initial == old(w.initial) && prev == w.v
      invariant Attempting(old(w.Now()), w.Now(), env, i)
    {
      var cmp := prev;
      ghost var start := w.Now();
      AddStores(op, val, cmp);
      prev := w.CompareAndSwap(cmp, Wrap(prev + val), env[i], op);
      if prev == cmp {
        AttemptEnds(old(w.Now()), start, w.Now(), env, i, op);
        return Some(prev);
      }
      AttemptFails(old(w.Now()), start, w.Now(), env, i);
    }
    StillAttempting(old(w.Now()), w.Now(), env, op);
    return None;
  }

  /** The swap loop on compare-and-swap. */
  method SwapByCas(w: Word, val: Int32, env: seq<seq<Op>>) returns (r: Option<Int32>)
    requires w.Valid()
    modifies w
    ensures w.Valid() && w.initial == old(w.initial)
    ensures EndsOnSame(old(w.Now()), w.Now(), env, Swap(val), r)
  {
    var prev := w.v;
    for i := 0 to |env|
      invariant w.Valid() && w.initial == old(w.initial) && prev == w.v
      invariant Attempting(old(w.Now()), w.Now(), env, i)
    {
      var cmp := prev;
      ghost var start := w.Now();
      prev := w.CompareAndSwap(cmp, val, env[i], Swap(val));
      if prev == cmp {
        AttemptEnds(old(w.Now()), start, w.Now(), env, i, Swap(val));
        return Some(prev);
      }
      AttemptFails(old(w.Now()), start, w.Now(), env, i);
    }
    StillAttempting(old(w.Now()), w.Now(), env, Swap(val));
    return None;
  }
}
