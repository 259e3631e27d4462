/**
 The check at the end of the stack test: walk the chain from head, mark what is met, and see that
 every other object is off the stack.
 */
module StackWalk {
  import LlscStack

  /** The path that next describes from head: these objects, then the end of the chain. */
  ghost predicate IsPath(head: int, next: seq<int>, c: seq<int>) {
    && head == LlscStack.At(c, 0)
    && (forall i :: 0 <= i < |c| ==> 0 <= c[i] < |next|)
    && (forall i :: 0 <= i < |c| ==> next[c[i]] == LlscStack.At(c, i + 1))
  }

  /** The stack is consistent with contents c: on_stack is 1 for the objects of the chain, and 0 or 2 for all others. */
  ghost predicate Consistent(head: int, next: seq<int>, onStack: seq<int>, c: seq<int>) {
    && |onStack| == |next|
    && IsPath(head, next, c)
    && (forall o :: 0 <= o < |next| && o in c ==> onStack[o] == 1)
    && (forall o :: 0 <= o < |next| && o !in c ==> onStack[o] == 0 || onStack[o] == 2)
  }

  /** As far as the walk has come: w leads from head to i. */
  ghost predicate Walked(head: int, next: seq<int>, w: seq<int>, i: int) {
    && (w == [] ==> i == head) && (w != [] ==> w[0] == head && i == NextOf(next, w[|w| - 1]))
    && (forall k :: 0 <= k < |w| ==> 0 <= w[k] < |next|)
    && (forall k, l :: 0 <= k && l == k + 1 < |w| ==> next[w[k]] == w[l])
    && (forall k, l :: 0 <= k < l < |w| ==> w[k] != w[l])
  }

  function NextOf(next: seq<int>, o: int): int {
    if 0 <= o < |next| then next[o] else -1
  }

  /** Two paths from the same head agree as far as both go. */
  lemma {:induction false} WalkFollows(head: int, next: seq<int>, w: seq<int>, i: int, c: seq<int>)
    requires Walked(head, next, w, i) && IsPath(head, next, c)
    ensures |w| <= |c| && w == c[..|w|]
    ensures i == LlscStack.At(c, |w|)
    decreases |w|
  {
    if w != [] {
      var v, last := w[..|w| - 1], w[|w| - 1];
      assert forall k :: 0 <= k < |v| ==> v[k] == w[k];
      assert v != [] ==> next[v[|v| - 1]] == w[|v|];
      assert Walked(head, next, v, last);
      WalkFollows(head, next, v, last, c);
      assert c[|v|] == last && next[c[|v|]] == i;
      assert w == v + [last];
    }
  }

  /** A path that ends meets no object twice. */
  lemma {:induction false} PathDistinct(head: int, next: seq<int>, c: seq<int>, k: nat, l: nat)
    requires IsPath(head, next, c) && k < l < |c|
    ensures c[k] != c[l]
    decreases |c| - l
  {
    if l + 1 < |c| {
      PathDistinct(head, next, c, k + 1, l + 1);
    }
    assert next[c[k]] == c[k + 1] && next[c[l]] == LlscStack.At(c, l + 1);
  }

  function Below(n: nat): (s: set<int>)
    ensures |s| == n
    ensures forall k :: k in s <==> 0 <= k < n
  {
    if n == 0 then {} else Below(n - 1) + {n - 1}
  }

  /** There are at most n different objects to meet. */
  lemma DistinctBound(w: seq<int>, n: nat)
    requires forall k :: 0 <= k < |w| ==> 0 <= w[k] < n
    requires forall k, l :: 0 <= k < l < |w| ==> w[k] != w[l]
    ensures |w| <= n
  {
    var m := set k | 0 <= k < |w| :: w[k];
    Elements(w);
    assert m <= Below(n);
    assert Below(n) == m + (Below(n) - m);
  }

  lemma {:induction false} Elements(w: seq<int>)
    requires forall k, l :: 0 <= k < l < |w| ==> w[k] != w[l]
    ensures |set k | 0 <= k < |w| :: w[k]| == |w|
    decreases |w|
  {
    if w != [] {
      var v := w[..|w| - 1];
      Elements(v);
      assert (set k | 0 <= k < |w| :: w[k]) == (set k | 0 <= k < |v| :: v[k]) + {w[|w| - 1]};
    }
  }

  /** The walk has met something that no consistent stack shows it. */
  lemma Inconsistent(head: int, next: seq<int>, was: seq<int>, w: seq<int>, i: int)
    requires Walked(head, next, w, i) && |was| == |next|
    requires 0 <= i < |next| ==> i in w || was[i] != 1
    requires i != -1
    ensures forall c :: !Consistent(head, next, was, c)
  {
    forall c | Consistent(head, next, was, c)
      ensures false
    {
      WalkFollows(head, next, w, i, c);
      if i in w {
        var k :| 0 <= k < |w| && w[k] == i;
        PathDistinct(head, next, c, k, |w|);
      }
    }
  }

  /** An object that the finished walk has not met is neither off the stack nor on it. */
  lemma LeftOver(head: int, next: seq<int>, was: seq<int>, w: seq<int>, o: int)
    requires Walked(head, next, w, -1) && |was| == |next|
    requires 0 <= o < |next| && o !in w && was[o] != 0 && was[o] != 2
    ensures forall c :: !Consistent(head, next, was, c)
  {
    forall c | IsPath(head, next, c)
      ensures c == w
    {
      WalkFollows(head, next, w, -1, c);
    }
  }

  /** The walk has marked what it has met, which was set, and nothing else. */
  ghost predicate Marked(was: seq<int>, now: seq<int>, w: seq<int>) {
    && |was| == |now|
    && (forall o :: 0 <= o < |now| ==> now[o] == if o in w then 2 else was[o])
    && (forall o :: 0 <= o < |now| && o in w ==> was[o] == 1)
  }

  /** One object further on the walk, and it is marked. */
  lemma WalkOn(head: int, next: seq<int>, was: seq<int>, now: seq<int>, w: seq<int>, i: int)
    requires Walked(head, next, w, i) && Marked(was, now, w) && |now| == |next|
    requires 0 <= i < |next| && now[i] == 1
    ensures Walked(head, next, w + [i], next[i]) && Marked(was, now[i := 2], w + [i]) && |w| + 1 <= |next|
  {
    assert i !in w;
    DistinctBound(w + [i], |next|);
  }

  lemma WalkDone(head: int, next: seq<int>, was: seq<int>, now: seq<int>, w: seq<int>)
    requires Walked(head, next, w, -1) && Marked(was, now, w) && |now| == |next|
    requires forall o :: 0 <= o < |now| ==> now[o] == 0 || now[o] == 2
    ensures Consistent(head, next, was, w)
  {
    forall k | 0 <= k < |w|
      ensures next[w[k]] == LlscStack.At(w, k + 1)
    {
    }
  }

  /** Walks and marks. The result is true exactly if the stack is consistent, and then onChain is the number of
      objects on it. */
  method WalkStack(head: int, next: array<int>, onStack: array<int>) returns (ok: bool, onChain: nat)
    requires next != onStack && next.Length == onStack.Length
    modifies onStack
    ensures ok <==> exists c :: Consistent(head, next[..], old(onStack[..]), c)
    ensures ok ==> exists c :: Consistent(head, next[..], old(onStack[..]), c) && onChain == |c|
  {
    var i := head;
    ghost var w: seq<int> := [];
    ghost var was := onStack[..];
    onChain := 0;
    while 0 <= i < next.Length
      invariant Walked(head, next[..], w, i) && Marked(was, onStack[..], w) && onChain == |w| <= next.Length
      decreases next.Length - |w|
    {
      if onStack[i] != 1 {
        Inconsistent(head, next[..], was, w, i);
        return false, onChain;
      }
      WalkOn(head, next[..], was, onStack[..], w, i);
      onStack[i] := 2;
      onChain := onChain + 1;
      w := w + [i];
      i := next[i];
    }
    if i != -1 {
      Inconsistent(head, next[..], was, w, i);
      return false, onChain;
    }
    for o := 0 to next.Length
      invariant forall k :: 0 <= k < o ==> onStack[k] == 0 || onStack[k] == 2
    {
      if onStack[o] != 0 && onStack[o] != 2 {
        LeftOver(head, next[..], was, w, o);
        return false, onChain;
      }
    }
    WalkDone(head, next[..], was, onStack[..], w);
    ok := true;
  }

  /** When all threads of the stack test are done, its walk finds a consistent stack,
      with as many objects on it as there were pushes more than pops. */
  lemma WalkAccepts(s0: LlscStack.State, acts: seq<LlscStack.Action>, next: seq<int>, onStack: seq<int>)
    requires LlscStack.Init(s0) && LlscStack.IsRun(s0, acts)
    requires var s := LlscStack.Exec(s0, acts);
             && (forall t <- s.threads :: s.threads[t] == LlscStack.PushDone || s.threads[t] == LlscStack.PopDone)
             && |next| == |onStack|
             && (forall o :: o in s.next <==> 0 <= o < |next|)
             && (forall o :: o in s.onStack <==> 0 <= o < |next|)
             && (forall o :: 0 <= o < |next| ==> next[o] == s.next[o] && onStack[o] == s.onStack[o])
    ensures var s := LlscStack.Exec(s0, acts);
            && LlscStack.Replay(s.log).Chain?
            && Consistent(s.head, next, onStack, LlscStack.Replay(s.log).objs)
            && |LlscStack.Replay(s.log).objs| == LlscStack.Pushes(s.log) - (|s.log| - LlscStack.Pushes(s.log))
  {
    LlscStack.StackIsConsistent(s0, acts);
    LlscStack.InitInv(s0);
    LlscStack.RunInv(s0, acts);
    QuietConsistent(LlscStack.Exec(s0, acts), next, onStack);
  }

  lemma QuietConsistent(s: LlscStack.State, next: seq<int>, onStack: seq<int>)
    requires LlscStack.Inv(s)
    requires forall t <- s.threads :: s.threads[t] == LlscStack.PushDone || s.threads[t] == LlscStack.PopDone
    requires |next| == |onStack|
    requires forall o :: o in s.next <==> 0 <= o < |next|
    requires forall o :: o in s.onStack <==> 0 <= o < |next|
    requires forall o :: 0 <= o < |next| ==> next[o] == s.next[o] && onStack[o] == s.onStack[o]
    ensures Consistent(s.head, next, onStack, LlscStack.Replay(s.log).objs)
  {
    LlscStack.QuietStack(s);
    var c := LlscStack.Replay(s.log).objs;
    forall i | 0 <= i < |c|
      ensures next[c[i]] == LlscStack.At(c, i + 1)
    {
      assert s.next[c[i]] == LlscStack.At(c, i + 1);
    }
  }
}
