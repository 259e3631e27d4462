/**
 The queue as one thread uses it, on heap nodes: the fields and the statements of the header file,
 with elements in place of relative pointers.
 */
module OpaQueue {

  class Element {
    var next: Element?

    constructor ()
      ensures next == null
    {
      next := null;
    }
  }

  class Queue {
    var head: Element?
    var tail: Element?
    var shadowHead: Element?
    ghost var contents: seq<Element>

    /** The list runs from the first to the last element; its front is held by shadowHead or by head, not by both. */
    ghost predicate Valid()
      reads this, contents
    {
      && (forall i, j :: 0 <= i < j < |contents| ==> contents[i] != contents[j])
      && (forall i, j :: 0 <= i < |contents| && j == i + 1 < |contents| ==> contents[i].next == contents[j])
      && if contents == [] then
           head == null && tail == null && shadowHead == null
         else
           && tail == contents[|contents| - 1] && tail.next == null
           && ((shadowHead == contents[0] && head == null) || (shadowHead == null && head == contents[0]))
    }

    constructor ()
      ensures Valid() && contents == []
    {
      head, tail, shadowHead := null, null, null;
      contents := [];
    }

    /** Adds elt at the back. Only elt and the element that was last before get a new next. */
    method Enqueue(elt: Element)
      requires Valid() && elt !in contents
      modifies this, elt, contents
      ensures Valid() && contents == old(contents) + [elt]
      ensures forall e <- old(contents) :: e != old(tail) ==> e.next == old(e.next)
      ensures shadowHead == old(shadowHead)
    {
      elt.next := null;
      var prev := tail;
      tail := elt;
      if prev == null {
        head := elt;
      } else {
        prev.next := elt;
      }
      contents := contents + [elt];
    }

    /** Tells whether the queue is empty, and if it is not, moves the front into shadowHead. */
    method IsEmpty() returns (empty: bool)
      requires Valid()
      modifies this
      ensures Valid() && contents == old(contents) && tail == old(tail)
      ensures empty <==> contents == []
      ensures !empty ==> shadowHead == contents[0]
      ensures old(shadowHead) != null ==> head == old(head) && shadowHead == old(shadowHead)
    {
      empty := false;
      if shadowHead == null {
        if head == null {
          empty := true;
        } else {
          shadowHead := head;
          head := null;
        }
      }
    }

    /** The front, once IsEmpty has returned false. */
    method PeekHead() returns (elt: Element?)
      requires Valid()
      ensures shadowHead != null ==> contents != [] && elt == contents[0]
      ensures shadowHead == null ==> elt == null
    {
      if shadowHead == null {
        return null;
      }
      return shadowHead;
    }

    /** Takes out the front, as IsEmpty has returned false; nobody refers to it any more and it refers to nobody.
        With one thread the CAS of tail cannot lose: an element without successor is the last one. */
    method Dequeue() returns (elt: Element)
      requires Valid() && shadowHead != null
      modifies this, contents
      ensures old(contents) != [] && elt == old(contents)[0]
      ensures Valid() && contents == old(contents)[1..] && elt !in contents
      ensures elt.next == null && elt != head && elt != tail && elt != shadowHead
      ensures forall e <- contents :: e.next == old(e.next) && e.next != elt
      ensures head == null
    {
      elt := shadowHead;
      assert |contents| > 1 ==> contents[0].next == contents[1];
      if elt.next != null {
        shadowHead := elt.next;
      } else {
        shadowHead := null;
        var oldTail := tail;
        if oldTail == elt {
          tail := null;
        } else {
          assert false;
        }
      }
      elt.next := null;
      contents := contents[1..];
      forall e <- contents
        ensures e.next == old(e.next) && e.next != elt
      {
        var i :| 0 <= i < |contents| && contents[i] == e;
        assert e == old(contents)[i + 1];
        assert i + 1 < |contents| ==> contents[i].next == contents[i + 1];
      }
    }
  }

  method Fill(q: Queue, elts: seq<Element>)
    requires q.Valid() && q.contents == []
    requires forall i, j :: 0 <= i < j < |elts| ==> elts[i] != elts[j]
    modifies q, elts
    ensures q.Valid() && q.contents == elts
  {
    for i := 0 to |elts|
      invariant q.Valid() && q.contents == elts[..i]
    {
      q.Enqueue(elts[i]);
    }
  }

  method Drain(q: Queue) returns (out: seq<Element>)
    requires q.Valid()
    modifies q, q.contents
    ensures out == old(q.contents) && q.Valid() && q.contents == []
  {
    ghost var elts := q.contents;
    out := [];
    var empty := q.IsEmpty();
    while !empty
      invariant q.Valid() && |out| <= |elts| && out == elts[..|out|] && q.contents == elts[|out|..]
      invariant empty <==> q.contents == []
      invariant !empty ==> q.shadowHead != null
      decreases |elts| - |out|
    {
      var peeked := q.PeekHead();
      var elt := q.Dequeue();
      assert elt == peeked;
      out := out + [elt];
      empty := q.IsEmpty();
    }
  }

  /** Whatever has been put in comes out in the same order, and then the queue is empty. */
  method FillAndDrain(q: Queue, elts: seq<Element>) returns (out: seq<Element>)
    requires q.Valid() && q.contents == []
    requires forall i, j :: 0 <= i < j < |elts| ==> elts[i] != elts[j]
    modifies q, elts
    ensures out == elts && q.Valid() && q.contents == []
  {
    Fill(q, elts);
    out := Drain(q);
  }
}
