/**
 What the queue promises on the store-buffer machine.
 */
module QueueTsoTheorems {
  import opened Options
  import opened QueueProtocol
  import opened QueueInvariant
  import opened QueueTheorems
  import opened QueueTso
  import opened QueueTsoRefinement

  lemma TInitInv(t: TState)
    requires TInit(t)
    ensures TInv(t)
  {
    InitInv(Abs(t));
    forall p <- t.producers
      ensures t.producers[p].at == Idle
    {
      AbsProducer(t, p);
    }
    assert t.issued.Keys == Abs(t).issued.Keys;
  }

  /** Every run with store buffers is, seen without buffers, a run of the unbuffered system. */
  lemma {:induction false} TRunRefines(t: TState, acts: seq<TAction>) returns (bs: seq<Action>)
    requires TInv(t) && TIsRun(t, acts)
    ensures TInv(TExec(t, acts))
    ensures IsRun(Abs(t), bs) && Exec(Abs(t), bs) == Abs(TExec(t, acts))
    decreases acts
  {
    if acts == [] {
      bs := [];
    } else {
      TStepInv(t, acts[0]);
      var rest := TRunRefines(TDo(t, acts[0]), acts[1..]);
      var b := Matching(t, acts[0]);
      if b.Some? {
        bs := [b.value] + rest;
        assert bs[1..] == rest;
      } else {
        bs := rest;
      }
    }
  }

  /** FIFO with store buffers: the same orders, over the elements each producer's program has begun to enqueue. */
  lemma TFifo(t0: TState, acts: seq<TAction>)
    requires TInit(t0) && TIsRun(t0, acts)
    ensures var t := TExec(t0, acts);
            && |t.returned| <= |t.swapped| == |t.swapper| && t.issued.Keys == t.producers.Keys
            && t.returned <= t.dequeued <= t.swapped
            && |t.dequeued| <= |t.returned| + 1
            && forall p <- t.producers :: From(t.returned, t.swapper[..|t.returned|], p) <= t.issued[p]
  {
    TInitInv(t0);
    var bs := TRunRefines(t0, acts);
    Fifo(Abs(t0), bs);
    IssuedVisible(TExec(t0, acts));
  }

  lemma IssuedVisible(t: TState)
    requires TInv(t) && InOrder(Abs(t))
    ensures forall p <- t.producers ::
              From(t.returned, t.swapper[..|t.returned|], p) <= t.issued[p]
  {
    var s := Abs(t);
    forall p <- t.producers
      ensures From(t.returned, t.swapper[..|t.returned|], p) <= t.issued[p]
    {
      AbsProducer(t, p);
      assert From(s.returned, s.swapper[..|s.returned|], p) <= s.issued[p] <= t.issued[p];
    }
  }

  /** The buffered reset of head reaches memory before any producer can see a null tail again: while it is buffered,
      tail in memory is not null, no producer has swapped out a null, and no store to head waits in a producer's
      buffer. */
  lemma HeadResetLands(t: TState, v: Ref)
    requires TInv(t) && Put(Store(HeadAddr, v)) in t.cbuf
    ensures v == REL_NULL && t.mem.tail != REL_NULL
    ensures forall p <- t.producers ::
              && (t.producers[p].at.Swapped? ==> t.producers[p].at.prev != REL_NULL)
              && forall st <- t.producers[p].buf :: st.addr != HeadAddr
  {
    assert EntryOk(t, Put(Store(HeadAddr, v)));
    forall p <- t.producers
      ensures t.producers[p].at.Swapped? ==> t.producers[p].at.prev != REL_NULL
      ensures forall st <- t.producers[p].buf :: st.addr != HeadAddr
    {
      assert BufferOk(t.producers[p]);
      assert Visible(t.producers[p]).Swapped? ==> Visible(t.producers[p]).prev != REL_NULL;
    }
  }

  lemma NoConsumerStoreTo(t: TState, e: Ref, v: Ref)
    requires forall i :: 0 <= i < |t.cbuf| ==> EntryOk(t, t.cbuf[i])
    requires e !in t.held && !InHand(t.consumer, e)
    ensures Put(Store(NextAddr(e), v)) !in t.cbuf
  {
    forall i | 0 <= i < |t.cbuf|
      ensures t.cbuf[i] != Put(Store(NextAddr(e), v))
    {
      assert EntryOk(t, t.cbuf[i]);
    }
  }

  lemma LinksIntoQueue(t: TState, p: Tid)
    requires TInv(t) && p in t.producers && t.producers[p].buf != [] && IsLink(t.producers[p].buf[0])
    ensures t.producers[p].buf[0].addr.NextAddr? ==> t.producers[p].buf[0].addr.elt in TQ(t)
  {
    AbsProducer(t, p);
    ElementsReal(Abs(t), p);
  }

  lemma BufferAvoids(tp: BufferedProducer, e: Ref, i: nat)
    requires BufferOk(tp) && i < |tp.buf| && tp.at != Cleared(e)
    requires IsLink(tp.buf[0]) ==> tp.buf[0].addr != NextAddr(e)
    ensures tp.buf[i].addr != NextAddr(e)
  {
  }

  lemma LinkAvoids(t: TState, e: Ref, p: Tid)
    requires TInv(t) && e !in TQ(t) && p in t.producers && t.producers[p].buf != [] && IsLink(t.producers[p].buf[0])
    ensures t.producers[p].buf[0].addr != NextAddr(e)
  {
    LinksIntoQueue(t, p);
  }

  lemma NoProducerStoreTo(t: TState, e: Ref, p: Tid, i: nat)
    requires TInv(t) && TFree(t, e) && p in t.producers && i < |t.producers[p].buf|
    ensures t.producers[p].buf[i].addr != NextAddr(e)
  {
    if IsLink(t.producers[p].buf[0]) {
      LinkAvoids(t, e, p);
    }
    BufferAvoids(t.producers[p], e, i);
  }

  /** Hand-off comes after the clear: once an element is available to others, no store to its next waits in any
      buffer. */
  lemma FreeIsClean(t: TState, e: Ref)
    requires TInv(t) && TFree(t, e)
    ensures forall v :: Put(Store(NextAddr(e), v)) !in t.cbuf
    ensures forall p, i :: p in t.producers && 0 <= i < |t.producers[p].buf| ==>
              t.producers[p].buf[i].addr != NextAddr(e)
  {
    forall v
      ensures Put(Store(NextAddr(e), v)) !in t.cbuf
    {
      NoConsumerStoreTo(t, e, v);
    }
    forall p, i | p in t.producers && 0 <= i < |t.producers[p].buf|
      ensures t.producers[p].buf[i].addr != NextAddr(e)
    {
      NoProducerStoreTo(t, e, p, i);
    }
  }

  lemma OneStep(t: TState, a: TAction)
    requires TEnabled(t, a)
    ensures TIsRun(t, [a]) && TExec(t, [a]) == TDo(t, a)
  {
    assert [a][1..] == [];
    assert TExec(t, [a]) == TExec(TDo(t, a), []);
  }

  lemma FlushLinks(t: TState, p: Tid)
    requires TInv(t) && p in t.producers && Visible(t.producers[p]).Swapped? && t.producers[p].buf != []
    ensures TIsRun(t, [Flush(p)]) && Abs(TExec(t, [Flush(p)])) == Do(Abs(t), Link(p))
  {
    FlushSimulates(t, p);
    OneStep(t, Flush(p));
  }

  lemma LinkAndFlush(t: TState, p: Tid)
    requires TInv(t) && p in t.producers && Visible(t.producers[p]).Swapped? && t.producers[p].buf == []
    ensures TIsRun(t, [TLink(p), Flush(p)])
    ensures Enabled(Abs(t), Link(p)) && Abs(TExec(t, [TLink(p), Flush(p)])) == Do(Abs(t), Link(p))
  {
    AbsProducer(t, p);
    TStepInv(t, TLink(p));
    var t1 := TDo(t, TLink(p));
    AbsProducer(t1, p);
    FlushLinks(t1, p);
    assert [TLink(p), Flush(p)][1..] == [Flush(p)];
  }

  /** While the consumer spins on a null next, one producer owes the link; at most two of its steps,
      the store and its arrival in memory, end the wait. */
  lemma TSpinOwed(t: TState) returns (p: Tid, steps: seq<TAction>)
    requires TInv(t) && t.consumer.Spinning? && Next(View(t.mem, t.cbuf), t.consumer.elt) == REL_NULL
    ensures p in t.producers && (steps == [Flush(p)] || steps == [TLink(p), Flush(p)])
    ensures TIsRun(t, steps) && WaitOver(Abs(TExec(t, steps)), t.consumer)
  {
    var s := Abs(t);
    SpinIsOwed(s);
    var x;
    p, x :| Owes(s, p, x, t.consumer.elt);
    AbsProducer(t, p);
    LinkEndsWait(s, p, x);
    if t.producers[p].buf == [] {
      steps := [TLink(p), Flush(p)];
      LinkAndFlush(t, p);
    } else {
      steps := [Flush(p)];
      FlushLinks(t, p);
    }
  }

  /** The run lets the producer issue its link store, if that is still due, and then lets it reach memory. */
  ghost predicate LinkArrives(t: TState, p: Tid, acts: seq<TAction>) {
    && p in t.producers
    && if t.producers[p].buf != [] then Flush(p) in acts
       else exists i :: 0 <= i < |acts| && acts[i] == TLink(p) && Flush(p) in acts[i + 1..]
  }

  /** After n of these actions the wait is over. */
  ghost predicate TWaitOverAfter(t: TState, acts: seq<TAction>, n: nat, c: Consumer) {
    n <= |acts| && TIsRun(t, acts[..n]) && WaitOver(Abs(TExec(t, acts[..n])), c)
  }

  lemma TWaitOverLater(t: TState, acts: seq<TAction>, n: nat, c: Consumer)
    requires acts != [] && TEnabled(t, acts[0]) && TWaitOverAfter(TDo(t, acts[0]), acts[1..], n, c)
    ensures TWaitOverAfter(t, acts, n + 1, c)
  {
    assert acts[..n + 1][1..] == acts[1..][..n];
  }

  ghost predicate WaitEnds(t: TState, acts: seq<TAction>, c: Consumer) {
    exists n :: 0 < n && TWaitOverAfter(t, acts, n, c)
  }

  lemma WaitEndsAtOnce(t: TState, acts: seq<TAction>, c: Consumer)
    requires acts != [] && TEnabled(t, acts[0]) && WaitOver(Abs(TDo(t, acts[0])), c)
    ensures WaitEnds(t, acts, c)
  {
    assert TWaitOverAfter(TDo(t, acts[0]), acts[1..], 0, c);
    TWaitOverLater(t, acts, 0, c);
  }

  lemma WaitEndsLater(t: TState, acts: seq<TAction>, c: Consumer)
    requires acts != [] && TEnabled(t, acts[0]) && WaitEnds(TDo(t, acts[0]), acts[1..], c)
    ensures WaitEnds(t, acts, c)
  {
    var n :| 0 < n && TWaitOverAfter(TDo(t, acts[0]), acts[1..], n, c);
    TWaitOverLater(t, acts, n, c);
  }

  lemma LinkIssued(acts: seq<TAction>, p: Tid, i: nat)
    requires i < |acts| && acts[i] == TLink(p) && Flush(p) in acts[i + 1..]
    ensures Flush(p) in acts[1..]
    ensures i > 0 ==> acts[1..][i - 1] == TLink(p) && Flush(p) in acts[1..][i..]
  {
    assert acts[i + 1..] == acts[1..][i..];
  }

  lemma OwnBuffer(t: TState, a: TAction, p: Tid)
    requires TEnabled(t, a) && a != Flush(p) && p in t.producers
    requires BufferOk(t.producers[p]) && Visible(t.producers[p]).Swapped?
    ensures p in TDo(t, a).producers
    ensures TDo(t, a).producers[p].buf == [] <==> t.producers[p].buf == [] && a != TLink(p)
  {
  }

  lemma LinkStillArrives(t: TState, p: Tid, acts: seq<TAction>)
    requires acts != [] && TEnabled(t, acts[0]) && acts[0] != Flush(p) && LinkArrives(t, p, acts)
    requires BufferOk(t.producers[p]) && Visible(t.producers[p]).Swapped?
    ensures LinkArrives(TDo(t, acts[0]), p, acts[1..])
  {
    OwnBuffer(t, acts[0], p);
    if t.producers[p].buf == [] {
      var i :| 0 <= i < |acts| && acts[i] == TLink(p) && Flush(p) in acts[i + 1..];
      LinkIssued(acts, p, i);
    }
  }

  /** The consumer spins for the link to x, which p owes. */
  ghost predicate SpinsFor(s: State, p: Tid, x: Ref) {
    s.consumer.Spinning? && Next(s.mem, s.consumer.elt) == REL_NULL && Owes(s, p, x, s.consumer.elt)
  }

  lemma SpinsOn(s: State, a: Action, p: Tid, x: Ref)
    requires Inv(s) && SpinsFor(s, p, x) && Enabled(s, a) && a != Link(p)
    ensures SpinsFor(Do(s, a), p, x) && Do(s, a).consumer == s.consumer
  {
    SpinKept(s, p, x, a);
  }

  /** A step other than the arrival of p's store is no link of p. */
  lemma NoLink(t: TState, a: TAction, p: Tid)
    requires TEnabled(t, a) && a != Flush(p)
    ensures Matching(t, a) != Some(Link(p))
  {
  }

  lemma TSpinKept(t: TState, a: TAction, p: Tid, x: Ref)
    requires TInv(t) && SpinsFor(Abs(t), p, x) && TEnabled(t, a) && a != Flush(p)
    ensures SpinsFor(Abs(TDo(t, a)), p, x) && Abs(TDo(t, a)).consumer == Abs(t).consumer
  {
    StepSimulates(t, a);
    NoLink(t, a, p);
    if Matching(t, a).Some? {
      SpinsOn(Abs(t), Matching(t, a).value, p, x);
    }
  }

  lemma FlushEndsWait(t: TState, p: Tid, x: Ref)
    requires TInv(t) && SpinsFor(Abs(t), p, x) && TEnabled(t, Flush(p))
    ensures WaitOver(Abs(TDo(t, Flush(p))), Abs(t).consumer)
  {
    AbsProducer(t, p);
    FlushSimulates(t, p);
    LinkEndsWait(Abs(t), p, x);
  }

  lemma SpinsBuffer(t: TState, p: Tid, x: Ref)
    requires TInv(t) && SpinsFor(Abs(t), p, x)
    ensures p in t.producers && BufferOk(t.producers[p]) && Visible(t.producers[p]).Swapped?
  {
    AbsProducer(t, p);
  }

  /** In every run with store buffers in which the owing producer's link store is issued and reaches memory, the
      wait is over then, whatever all threads and buffers do before: the consumer's next test leaves the loop. */
  lemma {:induction false} TSpinEnds(t: TState, acts: seq<TAction>, p: Tid, x: Ref)
    requires TInv(t) && SpinsFor(Abs(t), p, x) && TIsRun(t, acts) && LinkArrives(t, p, acts)
    ensures WaitEnds(t, acts, Abs(t).consumer)
    decreases acts
  {
    var a, c := acts[0], Abs(t).consumer;
    if a == Flush(p) {
      FlushEndsWait(t, p, x);
      WaitEndsAtOnce(t, acts, c);
    } else {
      SpinsBuffer(t, p, x);
      LinkStillArrives(t, p, acts);
      TSpinKept(t, a, p, x);
      TStepInv(t, a);
      TSpinEnds(TDo(t, a), acts[1..], p, x);
      WaitEndsLater(t, acts, c);
    }
  }

  // ---------------------------------------------------------------- nothing that the queue can do is missing

  lemma {:induction false} TExecConcat(x: TState, acts: seq<TAction>, more: seq<TAction>)
    requires TIsRun(x, acts) && TIsRun(TExec(x, acts), more)
    ensures TIsRun(x, acts + more) && TExec(x, acts + more) == TExec(TExec(x, acts), more)
    decreases acts
  {
    if acts == [] {
      assert acts + more == more;
    } else {
      assert (acts + more)[1..] == acts[1..] + more;
      TExecConcat(TDo(x, acts[0]), acts[1..], more);
    }
  }

  /** All buffers are empty. */
  ghost predicate TResting(t: TState) {
    t.cbuf == [] && forall p <- t.producers :: t.producers[p].buf == []
  }

  lemma RestingAbs(t: TState)
    requires TResting(t)
    ensures var s := Abs(t);
            && s.mem == t.mem && s.producers.Keys == t.producers.Keys
            && (forall p <- t.producers :: s.producers[p] == t.producers[p].at)
            && s.issued.Keys == t.issued.Keys
  {
    forall p <- t.producers
      ensures Abs(t).producers[p] == t.producers[p].at
    {
      AbsProducer(t, p);
    }
  }

  /** From s to s' nothing happens, or this step. */
  predicate Shows(s: State, m: Option<Action>, s': State) {
    if m.None? then s' == s else Enabled(s, m.value) && s' == Do(s, m.value)
  }

  lemma OneShows(t: TState, a: TAction)
    requires TInv(t) && TEnabled(t, a)
    ensures TInv(TDo(t, a)) && Shows(Abs(t), Matching(t, a), Abs(TDo(t, a)))
  {
    TStepInv(t, a);
  }

  lemma TwoShow(t: TState, a: TAction, b: TAction, c: Action)
    requires TInv(t) && TEnabled(t, a) && TEnabled(TDo(t, a), b)
    requires || (Matching(t, a) == None && Matching(TDo(t, a), b) == Some(c))
             || (Matching(t, a) == Some(c) && Matching(TDo(t, a), b) == None)
    ensures TInv(TDo(TDo(t, a), b)) && Shows(Abs(t), Some(c), Abs(TDo(TDo(t, a), b)))
  {
    OneShows(t, a);
    OneShows(TDo(t, a), b);
  }

  /** From empty buffers these steps do what a does, and leave the buffers empty. */
  ghost predicate Realizes(t: TState, acts: seq<TAction>, a: Action) {
    && TIsRun(t, acts) && TInv(TExec(t, acts)) && TResting(TExec(t, acts))
    && Shows(Abs(t), Some(a), Abs(TExec(t, acts)))
  }

  lemma RealizeOne(t: TState, a: TAction, c: Action)
    requires TInv(t) && TEnabled(t, a) && Matching(t, a) == Some(c) && TResting(TDo(t, a))
    ensures Realizes(t, [a], c)
  {
    OneShows(t, a);
    OneStep(t, a);
  }

  lemma RealizeTwo(t: TState, a: TAction, b: TAction, c: Action)
    requires TInv(t) && TEnabled(t, a) && TEnabled(TDo(t, a), b) && TResting(TDo(TDo(t, a), b))
    requires || (Matching(t, a) == None && Matching(TDo(t, a), b) == Some(c))
             || (Matching(t, a) == Some(c) && Matching(TDo(t, a), b) == None)
    ensures Realizes(t, [a, b], c)
  {
    TwoShow(t, a, b, c);
    OneStep(TDo(t, a), b);
    assert [a, b][1..] == [b];
  }

  /** A producer's store reaches memory at once. */
  lemma BeginAtOnce(t: TState, p: Tid, e: Ref)
    requires TResting(t) && TEnabled(t, TBegin(p, e))
    ensures var t1 := TDo(t, TBegin(p, e));
            && TEnabled(t1, Flush(p)) && TResting(TDo(t1, Flush(p)))
            && Matching(t, TBegin(p, e)) == None && Matching(t1, Flush(p)) == Some(Begin(p, e))
  {
  }

  lemma LinkAtOnce(t: TState, p: Tid)
    requires TResting(t) && TEnabled(t, TLink(p)) && t.producers[p].at.elt != REL_NULL
    ensures var t1 := TDo(t, TLink(p));
            && TEnabled(t1, Flush(p)) && TResting(TDo(t1, Flush(p)))
            && Matching(t, TLink(p)) == None && Matching(t1, Flush(p)) == Some(Link(p))
  {
  }

  lemma ReleaseAtOnce(t: TState, e: Ref)
    requires TResting(t) && TEnabled(t, TRelease(e))
    ensures var t1 := TDo(t, TRelease(e));
            && TEnabled(t1, FlushConsumer) && TResting(TDo(t1, FlushConsumer))
            && Matching(t, TRelease(e)) == None && Matching(t1, FlushConsumer) == Some(Release(e))
  {
  }

  /** So does the consumer's, if its access is one. */
  lemma ConsumeAtOnce(t: TState)
    requires TResting(t) && TEnabled(t, TConsume)
    ensures var t1 := TDo(t, TConsume);
            if t1.cbuf == [] then TResting(t1)
            else TEnabled(t1, FlushConsumer) && TResting(TDo(t1, FlushConsumer)) && Matching(t1, FlushConsumer) == None
  {
  }

  lemma RestingEnabled(t: TState, a: Action)
    requires TResting(t) && Enabled(Abs(t), a)
    ensures match a
            case Begin(p, e) => TEnabled(t, TBegin(p, e))
            case Swap(p) => TEnabled(t, TSwap(p))
            case Link(p) => TEnabled(t, TLink(p))
            case IsEmpty => TEnabled(t, TIsEmpty)
            case Consume => TEnabled(t, TConsume)
            case Release(e) => TEnabled(t, TRelease(e))
  {
    RestingAbs(t);
  }

  lemma LinkNotNull(t: TState, p: Tid)
    requires TInv(t) && TResting(t) && TEnabled(t, TLink(p))
    ensures t.producers[p].at.elt != REL_NULL
  {
    RestingAbs(t);
    ElementsReal(Abs(t), p);
  }

  lemma TEvent(t: TState, a: Action) returns (acts: seq<TAction>)
    requires TInv(t) && TResting(t) && Enabled(Abs(t), a)
    ensures Realizes(t, acts, a)
  {
    RestingEnabled(t, a);
    match a
    case Begin(p, e) =>
      acts := [TBegin(p, e), Flush(p)];
      BeginAtOnce(t, p, e);
      RealizeTwo(t, TBegin(p, e), Flush(p), a);
    case Swap(p) =>
      acts := [TSwap(p)];
      RealizeOne(t, TSwap(p), a);
    case Link(p) =>
      acts := [TLink(p), Flush(p)];
      LinkNotNull(t, p);
      LinkAtOnce(t, p);
      RealizeTwo(t, TLink(p), Flush(p), a);
    case IsEmpty =>
      acts := [TIsEmpty];
      RealizeOne(t, TIsEmpty, a);
    case Consume => acts := ConsumeEvent(t);
    case Release(e) =>
      acts := [TRelease(e), FlushConsumer];
      ReleaseAtOnce(t, e);
      RealizeTwo(t, TRelease(e), FlushConsumer, a);
  }

  lemma ConsumeEvent(t: TState) returns (acts: seq<TAction>)
    requires TInv(t) && TResting(t) && TEnabled(t, TConsume)
    ensures Realizes(t, acts, Consume)
  {
    ConsumeAtOnce(t);
    if TDo(t, TConsume).cbuf == [] {
      acts := [TConsume];
      RealizeOne(t, TConsume, Consume);
    } else {
      acts := [TConsume, FlushConsumer];
      RealizeTwo(t, TConsume, FlushConsumer, Consume);
    }
  }

  lemma {:induction false} TRealize(x: TState, acts: seq<Action>) returns (more: seq<TAction>)
    requires TInv(x) && TResting(x) && IsRun(Abs(x), acts)
    ensures TIsRun(x, more) && Abs(TExec(x, more)) == Exec(Abs(x), acts)
    decreases acts
  {
    more := [];
    if acts != [] {
      more := TEvent(x, acts[0]);
      var rest := TRealize(TExec(x, more), acts[1..]);
      TExecConcat(x, more, rest);
      more := more + rest;
    }
  }

  /** Every run without store buffers is also possible with them. */
  lemma TComplete(x0: TState, acts: seq<Action>) returns (more: seq<TAction>)
    requires TInit(x0) && IsRun(Abs(x0), acts)
    ensures TIsRun(x0, more) && Abs(TExec(x0, more)) == Exec(Abs(x0), acts)
  {
    TInitInv(x0);
    more := TRealize(x0, acts);
  }

  // ---------------------------------------------------------------- every store can reach memory

  predicate OnlyFlushes(acts: seq<TAction>) {
    forall a <- acts :: a.Flush? || a == FlushConsumer
  }

  lemma {:induction false} DrainConsumer(t: TState) returns (acts: seq<TAction>)
    ensures TIsRun(t, acts) && OnlyFlushes(acts)
    ensures TExec(t, acts).cbuf == [] && TExec(t, acts).producers == t.producers
    decreases |t.cbuf|
  {
    acts := [];
    if t.cbuf != [] {
      var more := DrainConsumer(TDo(t, FlushConsumer));
      OneStep(t, FlushConsumer);
      TExecConcat(t, [FlushConsumer], more);
      acts := [FlushConsumer] + more;
    }
  }

  lemma {:induction false} DrainProducer(t: TState, p: Tid) returns (acts: seq<TAction>)
    requires p in t.producers
    ensures TIsRun(t, acts) && OnlyFlushes(acts)
    ensures TExec(t, acts).producers == t.producers[p := BufferedProducer(t.producers[p].at, [])]
    decreases |t.producers[p].buf|
  {
    acts := [];
    if t.producers[p].buf != [] {
      var more := DrainProducer(TDo(t, Flush(p)), p);
      OneStep(t, Flush(p));
      TExecConcat(t, [Flush(p)], more);
      acts := [Flush(p)] + more;
    }
  }

  /** The producers that have stores in their buffers. */
  function Storing(t: TState): set<Tid> {
    set p | p in t.producers && t.producers[p].buf != []
  }

  lemma {:induction false} DrainProducers(t: TState) returns (acts: seq<TAction>)
    ensures TIsRun(t, acts) && OnlyFlushes(acts) && Storing(TExec(t, acts)) == {}
    decreases |Storing(t)|
  {
    acts := [];
    if Storing(t) != {} {
      var p :| p in Storing(t);
      acts := DrainProducer(t, p);
      var t' := TExec(t, acts);
      assert Storing(t') == Storing(t) - {p};
      var more := DrainProducers(t');
      TExecConcat(t, acts, more);
      acts := acts + more;
    }
  }

  /** From every state the memory system alone can bring every buffered store to memory. */
  lemma Drain(t: TState) returns (acts: seq<TAction>)
    ensures TIsRun(t, acts) && OnlyFlushes(acts) && TResting(TExec(t, acts))
  {
    acts := DrainProducers(t);
    var t' := TExec(t, acts);
    var more := DrainConsumer(t');
    TExecConcat(t, acts, more);
    acts := acts + more;
    forall p <- t'.producers
      ensures t'.producers[p].buf == []
    {
      assert p !in Storing(t');
    }
  }
}
