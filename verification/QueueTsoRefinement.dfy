/**
 The store-buffer machine refines the step system, so the queue keeps its promises on it.
 */
module QueueTsoRefinement {
  import opened Options
  import opened QueueProtocol
  import opened QueueInvariant
  import opened QueueTheorems
  import opened QueueTso

  /** t' is what t becomes, seen without buffers: nothing new, or one enabled step. */
  ghost predicate Simulates(t: TState, a: TAction)
    requires TEnabled(t, a)
  {
    match Matching(t, a)
    case None => Abs(TDo(t, a)) == Abs(t)
    case Some(b) => Enabled(Abs(t), b) && Abs(TDo(t, a)) == Do(Abs(t), b)
  }

  lemma AbsProducer(t: TState, p: Tid)
    requires p in t.producers
    ensures p in Abs(t).producers && Abs(t).producers[p] == Visible(t.producers[p])
  {
  }

  lemma ViewHasAll(t: TState)
    requires TInv(t)
    ensures Abs(t).mem.next.Keys == t.mem.next.Keys && Abs(t).mem.tail == t.mem.tail
  {
    forall i | 0 <= i < |t.cbuf| && t.cbuf[i].Put? && t.cbuf[i].st.addr.NextAddr?
      ensures t.cbuf[i].st.addr.elt in t.mem.next
    {
      assert EntryOk(t, t.cbuf[i]);
    }
    ViewKeys(t.mem, t.cbuf);
    ViewTail(t.mem, t.cbuf, REL_NULL);
  }

  // ---------------------------------------------------------------- one step of a program

  lemma SimBegin(t: TState, p: Tid, e: Ref)
    requires BuffersOk(t) && TEnabled(t, TBegin(p, e))
    ensures Simulates(t, TBegin(p, e))
  {
    var t' := TDoBegin(t, p, e);
    assert BufferOk(t.producers[p]);
    assert Visible(t'.producers[p]) == Visible(t.producers[p]);
    assert Abs(t').producers == Abs(t).producers;
    assert t'.issued[p][..|t'.issued[p]| - 1] == t.issued[p];
    assert VisibleIssued(t.producers[p], t.issued[p]) == t.issued[p];
    assert Abs(t').issued == Abs(t).issued;
  }

  lemma SimSwap(t: TState, p: Tid)
    requires BuffersOk(t) && TEnabled(t, TSwap(p))
    ensures Simulates(t, TSwap(p))
  {
    var t' := TDoSwap(t, p);
    var s, s' := Abs(t), Abs(t');
    AbsProducer(t, p);
    ViewTail(t.mem, t.cbuf, t.producers[p].at.elt);
    assert s'.producers == DoSwap(s, p).producers;
    assert s'.issued == s.issued;
  }

  lemma SimLink(t: TState, p: Tid)
    requires TEnabled(t, TLink(p)) && BufferOk(t.producers[p]) && t.producers[p].at.elt != REL_NULL
    ensures Simulates(t, TLink(p))
  {
    var t', tp := TDoLink(t, p), t.producers[p];
    BufferedLink(tp, if p in t.issued then t.issued[p] else []);
    assert Abs(t').producers == Abs(t).producers;
    assert Abs(t').issued == Abs(t).issued;
  }

  /** A link store that has just been buffered changes nothing of what memory knows. */
  lemma BufferedLink(tp: BufferedProducer, issued: seq<Ref>)
    requires BufferOk(tp) && tp.at.Swapped? && tp.at.elt != REL_NULL
    ensures var tp' := BufferedProducer(Idle, tp.buf + [LinkStore(tp.at.elt, tp.at.prev)]);
            && Visible(tp') == Visible(tp) && VisibleIssued(tp', issued) == VisibleIssued(tp, issued) && BufferOk(tp')
  {
  }

  lemma ElementsReal(s: State, p: Tid)
    requires Inv(s) && p in s.producers && s.producers[p].Swapped?
    ensures s.producers[p].elt != REL_NULL && s.producers[p].elt in s.mem.next
    ensures s.producers[p].prev != REL_NULL ==> s.producers[p].prev in s.mem.next && s.producers[p].prev in Q(s)
    ensures s.producers[p].elt in Q(s)
  {
    assert StalledIn(s, Q(s), By(s), p);
  }

  lemma SimClose(t: TState)
    requires t.consumer.Closing? && TEnabled(t, TConsume)
    ensures Simulates(t, TConsume)
  {
    var t' := TDoClose(t);
    ViewTail(t.mem, t.cbuf, REL_NULL);
    assert Abs(t').producers == Abs(t).producers;
    assert Abs(t').issued == Abs(t).issued;
  }

  lemma SimMove(t: TState)
    requires !t.consumer.Closing? && TEnabled(t, TConsume)
    ensures Simulates(t, TConsume)
  {
    var t' := TDoMove(t);
    var m := ConsumerMove(t.consumer, View(t.mem, t.cbuf));
    assert Abs(t').mem == WriteOpt(Abs(t).mem, m.store) by {
      if m.store.Some? {
        ViewAppend(t.mem, t.cbuf, Put(m.store.value));
      } else {
        assert t.cbuf + [] == t.cbuf;
      }
    }
    assert Abs(t').producers == Abs(t).producers;
    assert Abs(t').issued == Abs(t).issued;
  }

  lemma SimConsumerOther(t: TState, a: TAction)
    requires TEnabled(t, a) && (a.TIsEmpty? || a.TRelease? || a.FlushConsumer?)
    requires forall i :: 0 <= i < |t.cbuf| ==> EntryOk(t, t.cbuf[i])
    ensures Simulates(t, a)
  {
    var t' := TDo(t, a);
    assert Abs(t').producers == Abs(t).producers;
    assert Abs(t').issued == Abs(t).issued;
    if a.TRelease? {
      ViewAppend(t.mem, t.cbuf, HandOff(a.elt));
    }
    if a.FlushConsumer? {
      assert EntryOk(t, t.cbuf[0]);
    }
  }

  // ---------------------------------------------------------------- a producer's store reaches memory

  /** No entry of the consumer's buffer writes the word that the store writes. */
  ghost predicate Alone(t: TState, st: Store) {
    forall i :: 0 <= i < |t.cbuf| ==> !SameWord(t.cbuf[i], st)
  }

  lemma LinkIsAlone(t: TState, p: Tid)
    requires TInv(t) && TEnabled(t, Flush(p)) && IsLink(t.producers[p].buf[0])
    ensures Alone(t, t.producers[p].buf[0])
  {
    var s, st := Abs(t), t.producers[p].buf[0];
    AbsProducer(t, p);
    ElementsReal(s, p);
    NotInQueue(s);
    forall i | 0 <= i < |t.cbuf|
      ensures !SameWord(t.cbuf[i], st)
    {
      assert EntryOk(t, t.cbuf[i]);
    }
  }

  lemma NotInQueue(s: State)
    requires Inv(s)
    ensures forall e <- Q(s) :: e !in s.held && !InHand(s.consumer, e) && e in s.mem.next
  {
  }

  lemma ClearIsAlone(t: TState, p: Tid)
    requires BuffersOk(t) && TEnabled(t, Flush(p)) && !IsLink(t.producers[p].buf[0])
    requires |t.dequeued| <= |t.swapped| && ProgramOwns(t)
    requires forall i :: 0 <= i < |t.cbuf| ==> EntryOk(t, t.cbuf[i])
    ensures Alone(t, t.producers[p].buf[0])
  {
    var st := t.producers[p].buf[0];
    assert BufferOk(t.producers[p]);
    forall i | 0 <= i < |t.cbuf|
      ensures !SameWord(t.cbuf[i], st)
    {
      assert EntryOk(t, t.cbuf[i]);
    }
  }

  lemma FlushParts(t: TState, p: Tid)
    requires TEnabled(t, Flush(p)) && p in t.issued && Alone(t, t.producers[p].buf[0])
    ensures var t', s := TDoFlush(t, p), Abs(t);
            && Abs(t') == s.(mem := Write(s.mem, t.producers[p].buf[0]),
                             producers := s.producers[p := Visible(t'.producers[p])],
                             issued := s.issued[p := VisibleIssued(t'.producers[p], t.issued[p])])
  {
    var t', s := TDoFlush(t, p), Abs(t);
    ViewCommutes(t.mem, t.cbuf, t.producers[p].buf[0]);
    assert Abs(t').producers == s.producers[p := Visible(t'.producers[p])];
    assert Abs(t').issued == s.issued[p := VisibleIssued(t'.producers[p], t.issued[p])];
  }

  /** What a producer's own buffer shows before and after its oldest store, a link, has reached memory. */
  lemma LinkBuffer(tp: BufferedProducer, issued: seq<Ref>)
    requires BufferOk(tp) && tp.buf != [] && IsLink(tp.buf[0])
    ensures var tp', v := BufferedProducer(tp.at, tp.buf[1..]), Visible(tp);
            && v.Swapped? && LinkStore(v.elt, v.prev) == tp.buf[0]
            && Visible(tp') == Idle && VisibleIssued(tp', issued) == VisibleIssued(tp, issued)
  {
  }

  /** The same for a clear. */
  lemma ClearBuffer(tp: BufferedProducer, issued: seq<Ref>)
    requires BufferOk(tp) && tp.buf != [] && !IsLink(tp.buf[0]) && tp.at.Cleared?
    requires issued != [] && issued[|issued| - 1] == tp.at.elt
    ensures var tp' := BufferedProducer(tp.at, tp.buf[1..]);
            && Visible(tp) == Idle && tp.buf[0] == Store(NextAddr(tp.at.elt), REL_NULL)
            && Visible(tp') == tp.at && VisibleIssued(tp', issued) == VisibleIssued(tp, issued) + [tp.at.elt]
  {
  }

  lemma SimFlushLink(t: TState, p: Tid)
    requires TEnabled(t, Flush(p)) && BufferOk(t.producers[p]) && IsLink(t.producers[p].buf[0])
    requires p in t.issued && Alone(t, t.producers[p].buf[0])
    ensures Simulates(t, Flush(p))
  {
    FlushParts(t, p);
    LinkBuffer(t.producers[p], t.issued[p]);
    var s := Abs(t);
    assert s.producers[p] == Visible(t.producers[p]);
    assert s.issued[p := s.issued[p]] == s.issued;
  }

  lemma ClearIsFree(t: TState, p: Tid)
    requires BuffersOk(t) && TEnabled(t, Flush(p)) && !IsLink(t.producers[p].buf[0])
    requires |t.dequeued| <= |t.swapped| && ProgramOwns(t) && Abs(t).mem.next.Keys == t.mem.next.Keys
    ensures t.producers[p].at.Cleared? && Free(Abs(t), t.producers[p].at.elt)
  {
    assert BufferOk(t.producers[p]);
    var e, s := t.producers[p].at.elt, Abs(t);
    forall p' <- s.producers
      ensures s.producers[p'] != Cleared(e)
    {
      AbsProducer(t, p');
      assert BufferOk(t.producers[p']);
    }
  }

  lemma SimFlushClear(t: TState, p: Tid)
    requires TEnabled(t, Flush(p)) && BufferOk(t.producers[p]) && !IsLink(t.producers[p].buf[0])
    requires p in t.issued && Alone(t, t.producers[p].buf[0])
    requires t.producers[p].at.Cleared? && |t.dequeued| <= |t.swapped| && Free(Abs(t), t.producers[p].at.elt)
    requires t.issued[p] != [] && t.issued[p][|t.issued[p]| - 1] == t.producers[p].at.elt
    ensures Simulates(t, Flush(p))
  {
    FlushParts(t, p);
    ClearBuffer(t.producers[p], t.issued[p]);
    assert Abs(t).producers[p] == Visible(t.producers[p]);
  }

  lemma FlushSimulates(t: TState, p: Tid)
    requires TInv(t) && TEnabled(t, Flush(p))
    ensures Simulates(t, Flush(p))
  {
    if IsLink(t.producers[p].buf[0]) {
      LinkIsAlone(t, p);
      SimFlushLink(t, p);
    } else {
      ClearIsAlone(t, p);
      ViewHasAll(t);
      ClearIsFree(t, p);
      SimFlushClear(t, p);
    }
  }

  lemma LinkSimulates(t: TState, p: Tid)
    requires TInv(t) && TEnabled(t, TLink(p))
    ensures Simulates(t, TLink(p))
  {
    assert BufferOk(t.producers[p]);
    AbsProducer(t, p);
    ElementsReal(Abs(t), p);
    SimLink(t, p);
  }

  /** Every step on the buffered machine is a step of the unbuffered system, or invisible in it. */
  lemma StepSimulates(t: TState, a: TAction)
    requires TInv(t) && TEnabled(t, a)
    ensures Simulates(t, a)
  {
    match a
    case TBegin(p, e) => SimBegin(t, p, e);
    case TSwap(p) => SimSwap(t, p);
    case TLink(p) => LinkSimulates(t, p);
    case TConsume => if t.consumer.Closing? { SimClose(t); } else { SimMove(t); }
    case TIsEmpty => SimConsumerOther(t, a);
    case TRelease(_) => SimConsumerOther(t, a);
    case FlushConsumer => SimConsumerOther(t, a);
    case Flush(p) => FlushSimulates(t, p);
  }

  // ---------------------------------------------------------------- the buffers stay in order

  lemma BufferStep(t: TState, a: TAction)
    requires TInv(t) && TEnabled(t, a)
    ensures BuffersOk(TDo(t, a))
  {
    if IsProducers(a) {
      if a.TLink? {
        AbsProducer(t, a.p);
        assert BufferOk(t.producers[a.p]);
        ElementsReal(Abs(t), a.p);
      }
      BufferStepOwn(t, a);
    }
  }

  lemma BufferStepOwn(t: TState, a: TAction)
    requires BuffersOk(t) && TEnabled(t, a) && IsProducers(a)
    requires a.TLink? ==> t.producers[a.p].at.elt != REL_NULL
    ensures BuffersOk(TDo(t, a))
  {
    var t' := TDo(t, a);
    assert BufferOk(t.producers[a.p]);
    forall p <- t'.producers
      ensures BufferOk(t'.producers[p])
    {
      assert p != a.p ==> t'.producers[p] == t.producers[p];
    }
  }

  predicate IsProducers(a: TAction) {
    a.TBegin? || a.TSwap? || a.TLink? || a.Flush?
  }

  lemma OwnsBegin(t: TState, p: Tid, e: Ref)
    requires |t.dequeued| <= |t.swapped| && ProgramOwns(t) && TEnabled(t, TBegin(p, e))
    ensures ProgramOwns(TDoBegin(t, p, e))
  {
    assert TQ(TDoBegin(t, p, e)) == TQ(t);
  }

  lemma OwnsSwap(t: TState, p: Tid)
    requires |t.dequeued| <= |t.swapped| && ProgramOwns(t) && TEnabled(t, TSwap(p))
    ensures |TDoSwap(t, p).dequeued| <= |TDoSwap(t, p).swapped| && ProgramOwns(TDoSwap(t, p))
  {
    assert TQ(TDoSwap(t, p)) == TQ(t) + [t.producers[p].at.elt];
  }

  /** A producer step changes who owns what only for its own thread. */
  lemma OwnsProducers(t: TState, a: TAction)
    requires |t.dequeued| <= |t.swapped| && ProgramOwns(t) && BuffersOk(t) && TEnabled(t, a) && IsProducers(a)
    ensures |TDo(t, a).dequeued| <= |TDo(t, a).swapped| && ProgramOwns(TDo(t, a))
  {
    match a
    case TBegin(p, e) => OwnsBegin(t, p, e);
    case TSwap(p) => OwnsSwap(t, p);
    case TLink(p) => assert TQ(TDo(t, a)) == TQ(t);
    case Flush(p) =>
      assert BufferOk(t.producers[p]);
      SameOwners(t, TDo(t, a));
  }

  lemma SameOwners(t: TState, t': TState)
    requires |t.dequeued| <= |t.swapped| && ProgramOwns(t)
    requires t'.producers.Keys == t.producers.Keys && forall p <- t.producers :: t'.producers[p].at == t.producers[p].at
    requires t'.consumer == t.consumer && t'.held == t.held && t'.issued == t.issued
    requires t'.dequeued == t.dequeued && t'.swapped == t.swapped && t.mem.next.Keys <= t'.mem.next.Keys
    ensures ProgramOwns(t')
  {
  }

  lemma OwnsConsumer(t: TState, t': TState)
    requires |t.dequeued| <= |t.swapped| && ProgramOwns(t) && |t'.dequeued| <= |t'.swapped|
    requires t'.producers == t.producers && t'.issued == t.issued && t.mem.next.Keys <= t'.mem.next.Keys
    requires forall e <- TQ(t') :: e in TQ(t)
    requires forall e <- t'.held :: e in t.held || InHand(t.consumer, e)
    requires forall e :: InHand(t'.consumer, e) ==> InHand(t.consumer, e) || e in TQ(t)
    ensures ProgramOwns(t')
  {
  }

  lemma OwnsRest(t: TState, a: TAction)
    requires |t.dequeued| <= |t.swapped| && ProgramOwns(t) && TEnabled(t, a) && !IsProducers(a)
    requires a.TConsume? ==>
               var t' := TDo(t, TConsume);
               && |t'.dequeued| <= |t'.swapped|
               && (forall e <- TQ(t') :: e in TQ(t))
               && (forall e :: InHand(t'.consumer, e) ==> InHand(t.consumer, e) || e in TQ(t))
    ensures |TDo(t, a).dequeued| <= |TDo(t, a).swapped| && ProgramOwns(TDo(t, a))
  {
    var t' := TDo(t, a);
    assert !a.TConsume? ==> TQ(t') == TQ(t);
    OwnsConsumer(t, t');
  }

  lemma OwnsStep(t: TState, a: TAction)
    requires TInv(t) && TEnabled(t, a)
    ensures |TDo(t, a).dequeued| <= |TDo(t, a).swapped| && ProgramOwns(TDo(t, a))
  {
    if IsProducers(a) {
      OwnsProducers(t, a);
    } else {
      if a.TConsume? {
        SimQueue(t);
      }
      OwnsRest(t, a);
    }
  }

  lemma ConsumeHand(s: State)
    requires Inv(s) && Enabled(s, Consume)
    ensures forall e :: InHand(Do(s, Consume).consumer, e) ==> InHand(s.consumer, e) || e in Q(s)
  {
    StepQueue(s, Consume);
  }

  /** A step of the consumer takes out the front or leaves the queue alone. */
  lemma SimQueue(t: TState)
    requires TInv(t) && TEnabled(t, TConsume)
    ensures var t' := TDo(t, TConsume);
            && |t'.dequeued| <= |t'.swapped|
            && (forall e <- TQ(t') :: e in TQ(t))
            && (forall e :: InHand(t'.consumer, e) ==> InHand(t.consumer, e) || e in TQ(t))
  {
    StepSimulates(t, TConsume);
    StepQueue(Abs(t), Consume);
    ConsumeHand(Abs(t));
    var t' := TDo(t, TConsume);
    assert t'.consumer == Abs(t').consumer && TQ(t') == Q(Abs(t')) && TQ(t) == Q(Abs(t));
  }

  lemma NoHeadWriterStep(t: TState, a: TAction)
    requires BuffersOk(t) && TEnabled(t, a) && IsProducers(a)
    requires a.TLink? ==> t.producers[a.p].at.elt != REL_NULL
    requires t.mem.tail != REL_NULL && NoHeadWriter(t)
    ensures NoHeadWriter(TDo(t, a))
  {
    var t' := TDo(t, a);
    assert BufferOk(t.producers[a.p]);
    assert Visible(t.producers[a.p]).Swapped? ==> Visible(t.producers[a.p]).prev != REL_NULL;
    forall p <- t'.producers | Visible(t'.producers[p]).Swapped?
      ensures Visible(t'.producers[p]).prev != REL_NULL
    {
      if p != a.p {
        assert t'.producers[p] == t.producers[p];
      }
    }
  }

  lemma EntriesProducers(t: TState, a: TAction)
    requires TInv(t) && TEnabled(t, a) && IsProducers(a)
    ensures forall i :: 0 <= i < |TDo(t, a).cbuf| ==> EntryOk(TDo(t, a), TDo(t, a).cbuf[i])
  {
    var t' := TDo(t, a);
    if a.TLink? {
      AbsProducer(t, a.p);
      assert BufferOk(t.producers[a.p]);
      ElementsReal(Abs(t), a.p);
    }
    if a.TSwap? {
      NullIsNoElement(t);
    }
    assert a.Flush? ==> BufferOk(t.producers[a.p]);
    assert t'.mem.tail == t.mem.tail || t'.mem.tail != REL_NULL;
    forall i | 0 <= i < |t'.cbuf|
      ensures EntryOk(t', t'.cbuf[i])
    {
      assert EntryOk(t, t.cbuf[i]);
      if t.mem.tail != REL_NULL && NoHeadWriter(t) {
        NoHeadWriterStep(t, a);
      }
    }
  }

  lemma NullIsNoElement(t: TState)
    requires TInv(t)
    ensures REL_NULL !in t.mem.next
  {
    ViewHasAll(t);
  }

  /** When the consumer is about to reset head, tail is not null and nobody is about to store head. */
  lemma ResetIsSafe(t: TState)
    requires TInv(t) && t.consumer == ResetHead
    ensures t.mem.tail != REL_NULL && NoHeadWriter(t)
  {
    var s := Abs(t);
    ViewHasAll(t);
    assert forall i :: 0 <= i < |Q(s)| ==> Q(s)[i] != REL_NULL;
    assert Q(s) != [] by {
      var f :| FrontReached(s, Q(s), By(s), f);
    }
    forall p <- t.producers | Visible(t.producers[p]).Swapped?
      ensures Visible(t.producers[p]).prev != REL_NULL
    {
      AbsProducer(t, p);
      if s.producers[p].prev == REL_NULL {
        OneHeadWriter(s, p);
      }
    }
  }

  lemma EntriesConsume(t: TState)
    requires TInv(t) && TEnabled(t, TConsume)
    ensures forall i :: 0 <= i < |TDo(t, TConsume).cbuf| ==> EntryOk(TDo(t, TConsume), TDo(t, TConsume).cbuf[i])
  {
    if t.consumer == ResetHead {
      ResetIsSafe(t);
    }
    if t.consumer.Unlinked? {
      ViewHasAll(t);
      assert InHand(t.consumer, t.consumer.elt);
    }
    if t.consumer.Closing? {
      assert t.cbuf == [];
    } else {
      EntriesMove(t);
    }
  }

  lemma EntriesMove(t: TState)
    requires !t.consumer.Closing? && forall i :: 0 <= i < |t.cbuf| ==> EntryOk(t, t.cbuf[i])
    requires t.consumer == ResetHead ==> t.mem.tail != REL_NULL && NoHeadWriter(t)
    requires t.consumer.Unlinked? ==> t.consumer.elt in t.mem.next
    ensures forall i :: 0 <= i < |TDoMove(t).cbuf| ==> EntryOk(TDoMove(t), TDoMove(t).cbuf[i])
  {
    var t' := TDoMove(t);
    forall i | 0 <= i < |t'.cbuf|
      ensures EntryOk(t', t'.cbuf[i])
    {
      if i < |t.cbuf| {
        assert t'.cbuf[i] == t.cbuf[i] && EntryOk(t, t.cbuf[i]);
        assert t'.producers == t.producers && NoHeadWriter(t) ==> NoHeadWriter(t');
      }
    }
  }

  lemma EntriesOther(t: TState, a: TAction)
    requires TInv(t) && TEnabled(t, a) && (a.TIsEmpty? || a.TRelease? || a.FlushConsumer?)
    ensures forall i :: 0 <= i < |TDo(t, a).cbuf| ==> EntryOk(TDo(t, a), TDo(t, a).cbuf[i])
  {
    var t' := TDo(t, a);
    assert a.FlushConsumer? ==> EntryOk(t, t.cbuf[0]);
    forall i | 0 <= i < |t'.cbuf|
      ensures EntryOk(t', t'.cbuf[i])
    {
      var k := if a.FlushConsumer? then i + 1 else i;
      if k < |t.cbuf| {
        assert t'.cbuf[i] == t.cbuf[k] && EntryOk(t, t.cbuf[k]);
        assert a.FlushConsumer? && t.cbuf[0].HandOff? ==> !Concerns(t.cbuf[k], t.cbuf[0].elt);
      }
    }
  }

  lemma HandOffAppend(buf: seq<Entry>, en: Entry)
    requires HandOffLast(buf) && forall e :: HandOff(e) in buf ==> !Concerns(en, e)
    ensures HandOffLast(buf + [en])
  {
  }

  /** The client cannot have handed off the element that the consumer is about to clear. */
  lemma HandNotHandedOff(t: TState, e: Ref)
    requires TInv(t) && t.consumer == Unlinked(e)
    ensures HandOff(e) !in t.cbuf
  {
    assert InHand(Abs(t).consumer, e);
    forall i | 0 <= i < |t.cbuf|
      ensures t.cbuf[i] != HandOff(e)
    {
      assert EntryOk(t, t.cbuf[i]);
    }
  }

  lemma HandOffMove(t: TState)
    requires HandOffLast(t.cbuf) && !t.consumer.Closing?
    requires t.consumer.Unlinked? ==> HandOff(t.consumer.elt) !in t.cbuf
    ensures HandOffLast(TDoMove(t).cbuf)
  {
    var st := ConsumerMove(t.consumer, View(t.mem, t.cbuf)).store;
    if st.Some? {
      HandOffAppend(t.cbuf, Put(st.value));
    } else {
      assert t.cbuf + [] == t.cbuf;
    }
  }

  lemma HandOffStep(t: TState, a: TAction)
    requires TInv(t) && TEnabled(t, a)
    ensures HandOffLast(TDo(t, a).cbuf)
  {
    match a
    case TConsume =>
      if !t.consumer.Closing? {
        if t.consumer.Unlinked? {
          HandNotHandedOff(t, t.consumer.elt);
        }
        HandOffMove(t);
      }
    case TRelease(e) => HandOffAppend(t.cbuf, HandOff(e));
    case _ =>
  }

  lemma TStepInv(t: TState, a: TAction)
    requires TInv(t) && TEnabled(t, a)
    ensures TInv(TDo(t, a)) && Simulates(t, a)
  {
    StepSimulates(t, a);
    var b := Matching(t, a);
    if b.Some? {
      StepInv(Abs(t), b.value);
    }
    BufferStep(t, a);
    OwnsStep(t, a);
    HandOffStep(t, a);
    if IsProducers(a) {
      EntriesProducers(t, a);
    } else if a.TConsume? {
      EntriesConsume(t);
    } else {
      EntriesOther(t, a);
    }
  }
}
