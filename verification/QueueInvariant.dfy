/**
 The invariant of the queue protocol: every link of the list that is missing is accounted
 for by exactly one producer that is between its swap and its link.
 */
module QueueInvariant {
  import opened QueueProtocol

  /** Who swapped in the elements of Q. */
  function By(s: State): seq<Tid>
    requires |s.dequeued| <= |s.swapper|
  {
    s.swapper[|s.dequeued|..]
  }

  /** q[i]'s producer, who[i], has swapped q[i] into the tail and not linked it to what was there before. */
  predicate Stalled(s: State, q: seq<Ref>, who: seq<Tid>, i: nat)
    requires i < |q| == |who|
  {
    && who[i] in s.producers
    && s.producers[who[i]] == Swapped(q[i], if i == 0 then REL_NULL else q[i - 1])
  }

  ghost predicate LogsAgree(s: State) {
    && |s.dequeued| <= |s.swapped| == |s.swapper|
    && s.dequeued == s.swapped[..|s.dequeued|]
    && s.dequeued == s.returned + match s.consumer { case Unlinked(e) => [e] case Done(e) => [e] case _ => [] }
  }

  /** The elements of q are distinct, real, and none of them is in somebody's hands. */
  ghost predicate Owned(s: State, q: seq<Ref>) {
    && REL_NULL !in s.mem.next
    && (forall i :: 0 <= i < |q| ==> q[i] in s.mem.next && q[i] !in s.held && !InHand(s.consumer, q[i]))
    && (forall i, j :: 0 <= i < j < |q| ==> q[i] != q[j])
    && (forall e <- s.held :: e in s.mem.next && s.mem.next[e] == REL_NULL && !InHand(s.consumer, e))
    && (forall e :: InHand(s.consumer, e) ==> e in s.mem.next)
  }

  /** A producer that has cleared an element and not swapped it yet is the only one that has it. */
  ghost predicate ClearedAlone(s: State, q: seq<Ref>) {
    && (forall p <- s.producers :: s.producers[p].Cleared? ==>
          var e := s.producers[p].elt;
          e in s.mem.next && s.mem.next[e] == REL_NULL && e !in q && e !in s.held && !InHand(s.consumer, e))
    && (forall p, p' :: p in s.producers && p' in s.producers && p != p' && s.producers[p].Cleared? ==>
          s.producers[p] != s.producers[p'])
  }

  /** Between neighbours of q the link is there, or null and exactly the swapper of the later one is stalled. */
  ghost predicate Linked(s: State, q: seq<Ref>, who: seq<Tid>)
    requires |q| == |who|
  {
    && (forall i :: 0 <= i < |q| - 1 ==>
          Next(s.mem, q[i]) == if Stalled(s, q, who, i + 1) then REL_NULL else q[i + 1])
    && (q != [] ==> Next(s.mem, q[|q| - 1]) == REL_NULL)
  }

  /** p is stalled at some place of q. */
  ghost predicate StalledIn(s: State, q: seq<Ref>, who: seq<Tid>, p: Tid)
    requires |q| == |who|
  {
    exists i :: 0 <= i < |q| && who[i] == p && Stalled(s, q, who, i)
  }

  ghost predicate PendingInQ(s: State, q: seq<Ref>, who: seq<Tid>)
    requires |q| == |who|
  {
    && (forall p <- s.producers :: s.producers[p].Swapped? ==> StalledIn(s, q, who, p))
    && (forall i :: 0 <= i < |who| ==> who[i] in s.producers)
  }

  /** The ways in which the consumer can get at the front of q. */
  datatype Front = ByShadow | InDequeue | ByHead | ByProducer

  predicate Holds(c: Consumer, e: Ref) {
    c == Closing(e) || c == Spinning(e) || c == Advancing(e)
  }

  predicate Reached(s: State, q: seq<Ref>, who: seq<Tid>, f: Front)
    requires q != [] && |q| == |who|
  {
    match f
    case ByShadow => s.mem.shadow == q[0]
    case InDequeue => s.mem.shadow == REL_NULL && Holds(s.consumer, q[0])
    case ByHead => s.mem.shadow == REL_NULL && !Holds(s.consumer, q[0]) && s.mem.head == q[0]
    case ByProducer => s.mem.shadow == REL_NULL && !Holds(s.consumer, q[0]) && Stalled(s, q, who, 0)
  }

  /** Exactly one way leads to the front, and head is null unless it is that way or about to be reset. */
  ghost predicate FrontReached(s: State, q: seq<Ref>, who: seq<Tid>, f: Front)
    requires |q| == |who|
  {
    if q == [] then
      s.mem.head == s.mem.shadow == REL_NULL
    else
      && Reached(s, q, who, f)
      && (f != ByProducer ==> !Stalled(s, q, who, 0))
      && (f != ByHead ==> s.mem.head == if s.consumer == ResetHead then q[0] else REL_NULL)
  }

  ghost predicate PlaceOk(s: State, q: seq<Ref>) {
    match s.consumer
    case Outside => true
    case TestHead => s.mem.shadow == REL_NULL
    case CopyHead => s.mem.shadow == REL_NULL && s.mem.head != REL_NULL
    case ResetHead => s.mem.shadow == s.mem.head != REL_NULL
    case Ready => s.mem.shadow != REL_NULL
    case Loaded(e) => s.mem.shadow == e != REL_NULL
    case NullNext(e) => s.mem.shadow == e != REL_NULL
    case Closing(e) => s.mem.shadow == REL_NULL && q != [] && q[0] == e
    case Spinning(e) => s.mem.shadow == REL_NULL && |q| > 1 && q[0] == e
    case Advancing(e) => q != [] && q[0] == e && Next(s.mem, e) != REL_NULL
    case Unlinked(e) => true
    case Done(e) => Next(s.mem, e) == REL_NULL
  }

  ghost predicate InvAt(s: State, q: seq<Ref>, who: seq<Tid>) {
    && |q| == |who|
    && s.mem.tail == (if q == [] then REL_NULL else q[|q| - 1])
    && Owned(s, q)
    && ClearedAlone(s, q)
    && Linked(s, q, who)
    && PendingInQ(s, q, who)
    && (exists f :: FrontReached(s, q, who, f))
    && PlaceOk(s, q)
  }

  ghost predicate Inv(s: State) {
    && LogsAgree(s)
    && InvAt(s, Q(s), By(s))
    && s.issued.Keys == s.producers.Keys
  }

  lemma InitInv(s: State)
    requires Init(s)
    ensures Inv(s)
  {
    assert FrontReached(s, Q(s), By(s), ByShadow);
  }

  /** If the same producers are between swap and link, with the same elements, the same places of q are open. */
  lemma SameStalls(s: State, s': State, q: seq<Ref>, who: seq<Tid>)
    requires |q| == |who| && PendingInQ(s, q, who) && s'.producers.Keys == s.producers.Keys
    requires forall p <- s.producers ::
               s.producers[p].Swapped? || s'.producers[p].Swapped? ==> s'.producers[p] == s.producers[p]
    ensures forall i :: 0 <= i < |q| ==> Stalled(s', q, who, i) == Stalled(s, q, who, i)
    ensures PendingInQ(s', q, who)
  {
    forall i | 0 <= i < |q|
      ensures Stalled(s', q, who, i) == Stalled(s, q, who, i)
    {
    }
    forall p <- s'.producers | s'.producers[p].Swapped?
      ensures StalledIn(s', q, who, p)
    {
      assert StalledIn(s, q, who, p);
    }
  }

  lemma BeginInv(s: State, p: Tid, e: Ref, q: seq<Ref>, who: seq<Tid>)
    requires InvAt(s, q, who) && Enabled(s, Begin(p, e)) && q == Q(s)
    ensures InvAt(DoBegin(s, p, e), q, who)
  {
    var s' := DoBegin(s, p, e);
    SameStalls(s, s', q, who);
    BeginOwned(s, p, e, q);
    BeginLinked(s, p, e, q, who);
    BeginFront(s, p, e, q, who);
  }

  lemma BeginLinked(s: State, p: Tid, e: Ref, q: seq<Ref>, who: seq<Tid>)
    requires |q| == |who| && Linked(s, q, who) && Enabled(s, Begin(p, e)) && q == Q(s)
    requires forall i :: 0 <= i < |q| ==> Stalled(DoBegin(s, p, e), q, who, i) == Stalled(s, q, who, i)
    ensures Linked(DoBegin(s, p, e), q, who)
  {
    assert forall i :: 0 <= i < |q| ==> q[i] != e;
  }

  lemma BeginFront(s: State, p: Tid, e: Ref, q: seq<Ref>, who: seq<Tid>)
    requires InvAt(s, q, who) && Enabled(s, Begin(p, e)) && q == Q(s)
    requires forall i :: 0 <= i < |q| ==> Stalled(DoBegin(s, p, e), q, who, i) == Stalled(s, q, who, i)
    ensures exists f :: FrontReached(DoBegin(s, p, e), q, who, f)
    ensures PlaceOk(DoBegin(s, p, e), q)
  {
    var f :| FrontReached(s, q, who, f);
    assert FrontReached(DoBegin(s, p, e), q, who, f);
    assert forall i :: 0 <= i < |q| ==> q[i] != e;
  }

  lemma BeginOwned(s: State, p: Tid, e: Ref, q: seq<Ref>)
    requires Owned(s, q) && ClearedAlone(s, q) && Enabled(s, Begin(p, e)) && q == Q(s)
    ensures Owned(DoBegin(s, p, e), q) && ClearedAlone(DoBegin(s, p, e), q)
  {
  }

  /** A swap opens one place more, the new last one. */
  lemma SwapStalls(s: State, p: Tid, q: seq<Ref>, who: seq<Tid>)
    requires |q| == |who| && PendingInQ(s, q, who) && Enabled(s, Swap(p))
    requires s.mem.tail == (if q == [] then REL_NULL else q[|q| - 1]) && s.producers[p].elt !in q
    ensures var s', q', who' := DoSwap(s, p), q + [s.producers[p].elt], who + [p];
            && (forall i :: 0 <= i < |q| ==> Stalled(s', q', who', i) == Stalled(s, q, who, i))
            && Stalled(s', q', who', |q|)
            && PendingInQ(s', q', who')
  {
    var s', q', who' := DoSwap(s, p), q + [s.producers[p].elt], who + [p];
    forall i | 0 <= i < |q|
      ensures Stalled(s', q', who', i) == Stalled(s, q, who, i)
    {
    }
    forall p' <- s'.producers | s'.producers[p'].Swapped?
      ensures StalledIn(s', q', who', p')
    {
      if p' == p {
        assert who'[|q|] == p && Stalled(s', q', who', |q|);
      } else {
        assert StalledIn(s, q, who, p');
        var i :| 0 <= i < |q| && who[i] == p' && Stalled(s, q, who, i);
        assert who'[i] == p' && Stalled(s', q', who', i);
      }
    }
  }

  lemma SwapInv(s: State, p: Tid, q: seq<Ref>, who: seq<Tid>)
    requires InvAt(s, q, who) && Enabled(s, Swap(p))
    ensures InvAt(DoSwap(s, p), q + [s.producers[p].elt], who + [p])
  {
    SwapStalls(s, p, q, who);
    SwapOwned(s, p, q);
    SwapLinked(s, p, q, who);
    SwapFront(s, p, q, who);
  }

  lemma SwapOwned(s: State, p: Tid, q: seq<Ref>)
    requires Owned(s, q) && ClearedAlone(s, q) && Enabled(s, Swap(p))
    ensures var s', q' := DoSwap(s, p), q + [s.producers[p].elt];
            Owned(s', q') && ClearedAlone(s', q')
  {
  }

  /** The place before the new last one is a gap now; the others stay as they are. */
  lemma SwapLinked(s: State, p: Tid, q: seq<Ref>, who: seq<Tid>)
    requires |q| == |who| && Linked(s, q, who) && ClearedAlone(s, q) && Enabled(s, Swap(p))
    requires var s', q', who' := DoSwap(s, p), q + [s.producers[p].elt], who + [p];
             && (forall i :: 0 <= i < |q| ==> Stalled(s', q', who', i) == Stalled(s, q, who, i))
             && Stalled(s', q', who', |q|)
    ensures Linked(DoSwap(s, p), q + [s.producers[p].elt], who + [p])
  {
    var s', q', who' := DoSwap(s, p), q + [s.producers[p].elt], who + [p];
    forall i | 0 <= i < |q'| - 1
      ensures Next(s'.mem, q'[i]) == if Stalled(s', q', who', i + 1) then REL_NULL else q'[i + 1]
    {
      assert i < |q| - 1 ==> Next(s.mem, q[i]) == if Stalled(s, q, who, i + 1) then REL_NULL else q[i + 1];
    }
  }

  lemma SwapFront(s: State, p: Tid, q: seq<Ref>, who: seq<Tid>)
    requires InvAt(s, q, who) && Enabled(s, Swap(p))
    requires var s', q', who' := DoSwap(s, p), q + [s.producers[p].elt], who + [p];
             && (forall i :: 0 <= i < |q| ==> Stalled(s', q', who', i) == Stalled(s, q, who, i))
             && Stalled(s', q', who', |q|)
    ensures exists f :: FrontReached(DoSwap(s, p), q + [s.producers[p].elt], who + [p], f)
    ensures PlaceOk(DoSwap(s, p), q + [s.producers[p].elt])
  {
    var s', q', who' := DoSwap(s, p), q + [s.producers[p].elt], who + [p];
    var f :| FrontReached(s, q, who, f);
    assert FrontReached(s', q', who', if q == [] then ByProducer else f);
  }

  /** Linking the element at place k fills in that one gap of the list and changes no other. */
  lemma LinkFillsGap(s: State, p: Tid, q: seq<Ref>, who: seq<Tid>, k: nat)
    requires InvAt(s, q, who) && Enabled(s, Link(p))
    requires k < |q| && who[k] == p && Stalled(s, q, who, k)
    ensures forall i :: 0 <= i < |q| ==> Stalled(DoLink(s, p), q, who, i) == (i != k && Stalled(s, q, who, i))
    ensures DoLink(s, p).mem == if k == 0 then s.mem.(head := q[0]) else s.mem.(next := s.mem.next[q[k - 1] := q[k]])
    ensures Linked(DoLink(s, p), q, who)
  {
    var s' := DoLink(s, p);
    forall i | 0 <= i < |q|
      ensures Stalled(s', q, who, i) == (i != k && Stalled(s, q, who, i))
    {
      assert i != k ==> q[i] != q[k];
    }
    if k > 0 {
      assert forall i :: 0 <= i < |q| && i != k - 1 ==> q[i] != q[k - 1];
    }
  }

  lemma LinkPending(s: State, p: Tid, q: seq<Ref>, who: seq<Tid>, k: nat)
    requires |q| == |who| && PendingInQ(s, q, who) && Enabled(s, Link(p)) && k < |q| && who[k] == p
    requires forall i :: 0 <= i < |q| ==> Stalled(DoLink(s, p), q, who, i) == (i != k && Stalled(s, q, who, i))
    ensures PendingInQ(DoLink(s, p), q, who)
  {
    var s' := DoLink(s, p);
    forall p' <- s'.producers | s'.producers[p'].Swapped?
      ensures StalledIn(s', q, who, p')
    {
      assert StalledIn(s, q, who, p');
    }
  }

  lemma LinkInv(s: State, p: Tid, q: seq<Ref>, who: seq<Tid>)
    requires InvAt(s, q, who) && Enabled(s, Link(p))
    ensures InvAt(DoLink(s, p), q, who)
  {
    var s' := DoLink(s, p);
    assert StalledIn(s, q, who, p);
    var k :| 0 <= k < |q| && who[k] == p && Stalled(s, q, who, k);
    LinkFillsGap(s, p, q, who, k);
    var f :| FrontReached(s, q, who, f);
    assert FrontReached(s', q, who, if k == 0 then ByHead else f);
    LinkPending(s, p, q, who, k);
    LinkOwned(s, p, q, k);
  }

  lemma LinkOwned(s: State, p: Tid, q: seq<Ref>, k: nat)
    requires Owned(s, q) && ClearedAlone(s, q) && Enabled(s, Link(p)) && k < |q|
    requires DoLink(s, p).mem == if k == 0 then s.mem.(head := q[0]) else s.mem.(next := s.mem.next[q[k - 1] := q[k]])
    ensures Owned(DoLink(s, p), q) && ClearedAlone(DoLink(s, p), q)
  {
    assert forall i :: 0 <= i < |q| ==> q[i] in q;
  }

  /** Steps that change neither memory nor the producers keep everything that does not mention the consumer. */
  lemma KeepProducers(s: State, s': State, q: seq<Ref>, who: seq<Tid>)
    requires |q| == |who| && s'.producers == s.producers && PendingInQ(s, q, who)
    ensures PendingInQ(s', q, who)
    ensures forall i :: 0 <= i < |q| ==> Stalled(s', q, who, i) == Stalled(s, q, who, i)
  {
    forall i | 0 <= i < |q|
      ensures Stalled(s', q, who, i) == Stalled(s, q, who, i)
    {
    }
    forall p' <- s'.producers | s'.producers[p'].Swapped?
      ensures StalledIn(s', q, who, p')
    {
      assert StalledIn(s, q, who, p');
    }
  }

  /** Steps of the consumer that leave every next and the client's elements alone and take nothing into its hand. */
  lemma KeepList(s: State, s': State, q: seq<Ref>, who: seq<Tid>)
    requires |q| == |who| && s'.producers == s.producers && PendingInQ(s, q, who)
    requires Owned(s, q) && ClearedAlone(s, q) && Linked(s, q, who)
    requires s'.mem.next == s.mem.next && s'.held == s.held
    requires forall e :: InHand(s'.consumer, e) ==> InHand(s.consumer, e)
    ensures Owned(s', q) && ClearedAlone(s', q) && Linked(s', q, who) && PendingInQ(s', q, who)
    ensures forall i :: 0 <= i < |q| ==> Stalled(s', q, who, i) == Stalled(s, q, who, i)
  {
    KeepProducers(s, s', q, who);
  }

  /** The accesses of is_empty: the front moves from head to shadow_head. */
  lemma TransferInv(s: State, q: seq<Ref>, who: seq<Tid>)
    requires InvAt(s, q, who) && (s.consumer.TestHead? || s.consumer.CopyHead? || s.consumer.ResetHead?)
    ensures InvAt(DoMove(s), q, who)
  {
    var s' := DoMove(s);
    KeepList(s, s', q, who);
    var f :| FrontReached(s, q, who, f);
    assert FrontReached(s', q, who, if s.consumer.CopyHead? then ByShadow else f);
  }

  /** The accesses of dequeue up to its decision: the front moves from shadow_head into the consumer's hand. */
  lemma DecideInv(s: State, q: seq<Ref>, who: seq<Tid>)
    requires InvAt(s, q, who)
    requires s.consumer.Ready? || s.consumer.Loaded? || s.consumer.NullNext? || s.consumer.Spinning?
    ensures InvAt(DoMove(s), q, who)
  {
    var s' := DoMove(s);
    KeepList(s, s', q, who);
    var f :| FrontReached(s, q, who, f);
    assert FrontReached(s', q, who, if s.consumer.NullNext? then InDequeue else f);
  }

  lemma IsEmptyInv(s: State, q: seq<Ref>, who: seq<Tid>)
    requires InvAt(s, q, who) && Enabled(s, IsEmpty)
    ensures InvAt(Do(s, IsEmpty), q, who)
  {
    KeepList(s, Do(s, IsEmpty), q, who);
    var f :| FrontReached(s, q, who, f);
    assert FrontReached(Do(s, IsEmpty), q, who, f);
  }

  /** Clearing the unlinked element's next touches nothing that the queue refers to. */
  lemma ClearInv(s: State, q: seq<Ref>, who: seq<Tid>)
    requires InvAt(s, q, who) && s.consumer.Unlinked?
    ensures InvAt(DoMove(s), q, who)
  {
    var s' := DoMove(s);
    KeepProducers(s, s', q, who);
    ClearOwned(s, s', q);
    ClearLinked(s, s', q, who);
    var f :| FrontReached(s, q, who, f);
    assert FrontReached(s', q, who, f);
  }

  lemma ClearOwned(s: State, s': State, q: seq<Ref>)
    requires Owned(s, q) && ClearedAlone(s, q) && s.consumer.Unlinked? && s'.consumer == Done(s.consumer.elt)
    requires s'.mem.next == s.mem.next[s.consumer.elt := REL_NULL]
    requires s'.producers == s.producers && s'.held == s.held
    ensures Owned(s', q) && ClearedAlone(s', q) && s.consumer.elt !in q && s.consumer.elt in s.mem.next
  {
    assert InHand(s.consumer, s.consumer.elt);
  }

  lemma ClearLinked(s: State, s': State, q: seq<Ref>, who: seq<Tid>)
    requires |q| == |who| && Linked(s, q, who) && s.consumer.Unlinked? && s.consumer.elt !in q
    requires s'.mem.next == s.mem.next[s.consumer.elt := REL_NULL]
    requires forall i :: 0 <= i < |q| ==> Stalled(s', q, who, i) == Stalled(s, q, who, i)
    ensures Linked(s', q, who)
  {
  }

  lemma ReturnInv(s: State, q: seq<Ref>, who: seq<Tid>)
    requires InvAt(s, q, who) && s.consumer.Done?
    ensures InvAt(DoMove(s), q, who)
  {
    var s' := DoMove(s);
    KeepProducers(s, s', q, who);
    ReturnOwned(s, s', q);
    var f :| FrontReached(s, q, who, f);
    assert FrontReached(s', q, who, f);
  }

  lemma ReturnOwned(s: State, s': State, q: seq<Ref>)
    requires Owned(s, q) && ClearedAlone(s, q) && s.consumer.Done? && s'.consumer == Outside
    requires Next(s.mem, s.consumer.elt) == REL_NULL && s'.mem.next == s.mem.next
    requires s'.producers == s.producers && s'.held == s.held + {s.consumer.elt}
    ensures Owned(s', q) && ClearedAlone(s', q)
  {
    assert InHand(s.consumer, s.consumer.elt);
  }

  /** Once the front is linked to its successor, the gaps behind it are the gaps of the rest. */
  lemma GapsOfRest(s: State, q: seq<Ref>, who: seq<Tid>)
    requires q != [] && |q| == |who| && PendingInQ(s, q, who)
    requires !Stalled(s, q, who, 0) && (|q| > 1 ==> !Stalled(s, q, who, 1))
    requires forall i, j :: 0 <= i < j < |q| ==> q[i] != q[j]
    requires REL_NULL !in q
    ensures forall i :: 0 <= i < |q| - 1 ==> Stalled(s, q[1..], who[1..], i) == Stalled(s, q, who, i + 1)
    ensures PendingInQ(s, q[1..], who[1..])
  {
    var q', who' := q[1..], who[1..];
    if |q| > 1 && s.producers[who[1]].Swapped? {
      assert StalledIn(s, q, who, who[1]);
    }
    forall i | 0 <= i < |q'|
      ensures Stalled(s, q', who', i) == Stalled(s, q, who, i + 1)
    {
    }
    forall p <- s.producers | s.producers[p].Swapped?
      ensures StalledIn(s, q', who', p)
    {
      assert StalledIn(s, q, who, p);
      var k :| 0 <= k < |q| && who[k] == p && Stalled(s, q, who, k);
      assert who'[k - 1] == p && Stalled(s, q', who', k - 1);
    }
  }

  /** Moving shadow_head past the front takes exactly the front out. */
  lemma AdvanceInv(s: State, q: seq<Ref>, who: seq<Tid>)
    requires InvAt(s, q, who) && s.consumer.Advancing?
    ensures q != [] && q[0] == s.consumer.elt
    ensures InvAt(DoMove(s), q[1..], who[1..])
  {
    var s' := DoMove(s);
    KeepProducers(s, s', q, who);
    var f :| FrontReached(s, q, who, f);
    assert |q| > 1 && !Stalled(s, q, who, 1);
    GapsOfRest(s', q, who);
    assert FrontReached(s', q[1..], who[1..], ByShadow);
    AdvanceOwned(s, s', q);
    AdvanceLinked(s, s', q, who);
  }

  lemma AdvanceOwned(s: State, s': State, q: seq<Ref>)
    requires Owned(s, q) && ClearedAlone(s, q) && q != []
    requires s.consumer == Advancing(q[0]) && s'.consumer == Unlinked(q[0])
    requires s'.mem.next == s.mem.next && s'.held == s.held && s'.producers == s.producers
    ensures Owned(s', q[1..]) && ClearedAlone(s', q[1..])
  {
    assert forall i :: 0 <= i < |q[1..]| ==> q[1..][i] == q[i + 1];
    assert q[0] in q;
  }

  lemma AdvanceLinked(s: State, s': State, q: seq<Ref>, who: seq<Tid>)
    requires |q| == |who| && Linked(s, q, who) && q != [] && s'.mem.next == s.mem.next
    requires forall i :: 0 <= i < |q| ==> Stalled(s', q, who, i) == Stalled(s, q, who, i)
    requires forall i :: 0 <= i < |q| - 1 ==> Stalled(s', q[1..], who[1..], i) == Stalled(s', q, who, i + 1)
    ensures Linked(s', q[1..], who[1..])
  {
    var q', who' := q[1..], who[1..];
    forall i | 0 <= i < |q'| - 1
      ensures Next(s'.mem, q'[i]) == if Stalled(s', q', who', i + 1) then REL_NULL else q'[i + 1]
    {
      assert Next(s.mem, q[i + 1]) == if Stalled(s, q, who, i + 2) then REL_NULL else q[i + 2];
    }
  }

  /** Winning the CAS takes out the one element that is left; losing it means there is another. */
  lemma CloseInv(s: State, q: seq<Ref>, who: seq<Tid>)
    requires InvAt(s, q, who) && s.consumer.Closing?
    ensures s.mem.tail == s.consumer.elt ==> q == [s.consumer.elt] && InvAt(DoClose(s), [], [])
    ensures s.mem.tail != s.consumer.elt ==> InvAt(DoClose(s), q, who)
  {
    if s.mem.tail == s.consumer.elt {
      CloseWins(s, q, who);
    } else {
      var f :| FrontReached(s, q, who, f);
      KeepList(s, DoClose(s), q, who);
      assert FrontReached(DoClose(s), q, who, f);
    }
  }

  lemma CloseWins(s: State, q: seq<Ref>, who: seq<Tid>)
    requires InvAt(s, q, who) && s.consumer.Closing? && s.mem.tail == s.consumer.elt
    ensures q == [s.consumer.elt] && InvAt(DoClose(s), [], [])
  {
    var s' := DoClose(s);
    KeepProducers(s, s', q, who);
    var f :| FrontReached(s, q, who, f);
    GapsOfRest(s', q, who);
    assert q[1..] == [] && who[1..] == [];
    assert FrontReached(s', [], [], ByShadow);
  }

  lemma ReleaseInv(s: State, e: Ref, q: seq<Ref>, who: seq<Tid>)
    requires InvAt(s, q, who) && Enabled(s, Release(e))
    ensures InvAt(Do(s, Release(e)), q, who)
  {
    KeepProducers(s, Do(s, Release(e)), q, who);
    var f :| FrontReached(s, q, who, f);
    assert FrontReached(Do(s, Release(e)), q, who, f);
  }

  /** The step with which the consumer takes the front out of the list. */
  predicate TakesOut(s: State, a: Action) {
    a == Consume && (s.consumer.Advancing? || (s.consumer.Closing? && s.mem.tail == s.consumer.elt))
  }

  /** What a step does to the abstract queue: a swap adds at the back, and taking out removes the front. */
  ghost predicate QueueStep(s: State, a: Action)
    requires LogsAgree(s) && Enabled(s, a)
  {
    var s' := Do(s, a);
    && LogsAgree(s')
    && (a.Swap? ==> Q(s') == Q(s) + [s.producers[a.p].elt] && By(s') == By(s) + [a.p])
    && (TakesOut(s, a) ==> Q(s) != [] && Q(s)[0] == s.consumer.elt && Q(s') == Q(s)[1..] && By(s') == By(s)[1..])
    && (!a.Swap? && !TakesOut(s, a) ==> Q(s') == Q(s) && By(s') == By(s))
  }

  lemma ConsumeQueue(s: State)
    requires LogsAgree(s) && Enabled(s, Consume)
    requires TakesOut(s, Consume) ==> Q(s) != [] && Q(s)[0] == s.consumer.elt
    ensures QueueStep(s, Consume)
  {
  }

  lemma StepQueue(s: State, a: Action)
    requires Inv(s) && Enabled(s, a)
    ensures QueueStep(s, a)
  {
    assert PlaceOk(s, Q(s));
    match a
    case Consume => ConsumeQueue(s);
    case Swap(p) =>
      assert Q(Do(s, a)) == Q(s) + [s.producers[p].elt] && By(Do(s, a)) == By(s) + [p];
    case _ =>
  }

  lemma ConsumeInv(s: State)
    requires Inv(s) && Enabled(s, Consume)
    ensures InvAt(Do(s, Consume), Q(Do(s, Consume)), By(Do(s, Consume)))
  {
    var q, who := Q(s), By(s);
    StepQueue(s, Consume);
    if s.consumer.Closing? {
      CloseInv(s, q, who);
      assert |who| == 1 ==> who[1..] == [];
    } else if s.consumer.Advancing? {
      AdvanceInv(s, q, who);
    } else if s.consumer.Unlinked? {
      ClearInv(s, q, who);
    } else if s.consumer.Done? {
      ReturnInv(s, q, who);
    } else if s.consumer.TestHead? || s.consumer.CopyHead? || s.consumer.ResetHead? {
      TransferInv(s, q, who);
    } else {
      DecideInv(s, q, who);
    }
  }

  lemma ProducerInv(s: State, a: Action)
    requires Inv(s) && Enabled(s, a) && (a.Begin? || a.Swap? || a.Link?) && QueueStep(s, a)
    ensures Inv(Do(s, a))
  {
    match a
    case Begin(p, e) => BeginInv(s, p, e, Q(s), By(s));
    case Swap(p) => SwapInv(s, p, Q(s), By(s));
    case Link(p) => LinkInv(s, p, Q(s), By(s));
  }

  /** Every step of every thread keeps the invariant. */
  lemma StepInv(s: State, a: Action)
    requires Inv(s) && Enabled(s, a)
    ensures Inv(Do(s, a))
  {
    StepQueue(s, a);
    match a
    case Begin(_, _) => ProducerInv(s, a);
    case Swap(_) => ProducerInv(s, a);
    case Link(_) => ProducerInv(s, a);
    case IsEmpty => IsEmptyInv(s, Q(s), By(s));
    case Release(e) => ReleaseInv(s, e, Q(s), By(s));
    case Consume => ConsumeInv(s);
  }

  /** The invariant holds in every state of every run. */
  lemma {:induction false} RunInv(s: State, acts: seq<Action>)
    requires Inv(s) && IsRun(s, acts)
    ensures Inv(Exec(s, acts))
    decreases acts
  {
    if acts != [] {
      StepInv(s, acts[0]);
      RunInv(Do(s, acts[0]), acts[1..]);
    }
  }
}
