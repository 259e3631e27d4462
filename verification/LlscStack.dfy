/**
 The stack test: threads push objects with compare-and-swap and pop them with load-linked / store-conditional.
 A pop reads `next` between its load-link and its store-conditional, so only the reservation
 keeps it from installing an outdated successor.
 */
module LlscStack {

  type Tid = nat
  /** Objects are numbered from 0; NO_OBJ ends the chain. */
  type Obj = int
  const NO_OBJ: Obj := -1

  datatype Thread =
    | PushIdle                     // between iterations
    | Acquired                     // has set on_stack of its object
    | LoadedHead(tmp: Obj)         // has loaded head, about to store next
    | StoredNext(tmp: Obj)         // about to CAS head
    | PushDone
    | PopIdle                      // about to load-link head
    | LinkedHead(obj: Obj)         // has load-linked obj
    | LoadedNext(obj: Obj, tmp: Obj)  // has loaded obj.next, about to store-conditional
    | Popped(obj: Obj)             // about to check on_stack
    | CheckedPop(obj: Obj)         // about to clear on_stack
    | PopCheck                     // about to see whether pushers are left
    | PopDone

  /** A successful push or pop. */
  datatype StackOp = Pushed(obj: Obj) | Taken(obj: Obj)

  /** Where an object is. */
  datatype Place = Free | WithPusher(t: Tid) | OnChain | WithPopper(t: Tid)

  /** `mine` is the object each pusher pushes; several pushers may share one.
      `log` holds the successful CAS and SC operations on head; `place` follows the objects;
      `errors` counts the failed checks of the poppers. */
  datatype State = State(
    head: Obj,
    next: map<Obj, Obj>,
    onStack: map<Obj, int>,
    npushers: int,
    reserved: set<Tid>,
    threads: map<Tid, Thread>,
    mine: map<Tid, Obj>,
    log: seq<StackOp>,
    place: map<Obj, Place>,
    errors: nat
  )

  /** The stack after a history of pushes and pops; none if some pop did not take the top. */
  datatype Chain = Broken | Chain(objs: seq<Obj>)

  function Replay(log: seq<StackOp>): Chain {
    if log == [] then Chain([])
    else
      var before := Replay(log[..|log| - 1]);
      match (before, log[|log| - 1])
      case (Broken, _) => Broken
      case (Chain(c), Pushed(o)) => Chain([o] + c)
      case (Chain(c), Taken(o)) => if c != [] && c[0] == o then Chain(c[1..]) else Broken
  }

  datatype Action =
    | Acquire(t: Tid)
    | LoadHead(t: Tid)
    | StoreNext(t: Tid)
    | CasHead(t: Tid)
    | StopPushing(t: Tid)
    | LinkHead(t: Tid)
    | LoadNext(t: Tid)
    | ScHead(t: Tid, spurious: bool)
    | CheckObject(t: Tid)
    | ReleaseObject(t: Tid)
    | CheckPushers(t: Tid)
    | Lose(t: Tid)

  predicate Enabled(s: State, a: Action) {
    && a.t in s.threads
    && match a
       case Acquire(t) => s.threads[t].PushIdle? && t in s.mine && s.mine[t] in s.onStack
       case LoadHead(t) => s.threads[t].Acquired?
       case StoreNext(t) => s.threads[t].LoadedHead? && t in s.mine
       case CasHead(t) => s.threads[t].StoredNext? && t in s.mine
       case StopPushing(t) => s.threads[t].PushIdle?
       case LinkHead(t) => s.threads[t].PopIdle?
       case LoadNext(t) => s.threads[t].LinkedHead? && s.threads[t].obj in s.next
       case ScHead(t, _) => s.threads[t].LoadedNext?
       case CheckObject(t) => s.threads[t].Popped? && s.threads[t].obj in s.onStack
       case ReleaseObject(t) => s.threads[t].CheckedPop?
       case CheckPushers(t) => s.threads[t].PopCheck?
       case Lose(t) => t in s.reserved
  }

  function Move(s: State, t: Tid, th: Thread): State {
    s.(threads := s.threads[t := th])
  }

  /** The CAS of on_stack from 0 to 1; if it fails, the pusher tries again or goes on to its next iteration. */
  function DoAcquire(s: State, t: Tid): State
    requires Enabled(s, Acquire(t))
  {
    var o := s.mine[t];
    if s.onStack[o] == 0 then
      Move(s, t, Acquired).(onStack := s.onStack[o := 1], place := s.place[o := WithPusher(t)])
    else s
  }

  function DoCasHead(s: State, t: Tid): State
    requires Enabled(s, CasHead(t))
  {
    var o := s.mine[t];
    if s.head == s.threads[t].tmp then
      Move(s, t, PushIdle).(head := o, reserved := {}, log := s.log + [Pushed(o)], place := s.place[o := OnChain])
    else Move(s, t, Acquired)
  }

  function DoLinkHead(s: State, t: Tid): State
    requires Enabled(s, LinkHead(t))
  {
    Move(s, t, if s.head == NO_OBJ then PopCheck else LinkedHead(s.head)).(reserved := s.reserved + {t})
  }

  function DoScHead(s: State, t: Tid, spurious: bool): State
    requires Enabled(s, ScHead(t, spurious))
  {
    var LoadedNext(o, tmp) := s.threads[t];
    if t in s.reserved && !spurious then
      Move(s, t, Popped(o)).(
        head := tmp, reserved := {}, log := s.log + [Taken(o)], place := s.place[o := WithPopper(t)])
    else Move(s, t, PopCheck).(reserved := s.reserved - {t})
  }

  function Do(s: State, a: Action): State
    requires Enabled(s, a)
  {
    match a
    case Acquire(t) => DoAcquire(s, t)
    case LoadHead(t) => Move(s, t, LoadedHead(s.head))
    case StoreNext(t) => Move(s, t, StoredNext(s.threads[t].tmp)).(next := s.next[s.mine[t] := s.threads[t].tmp])
    case CasHead(t) => DoCasHead(s, t)
    case StopPushing(t) => Move(s, t, PushDone).(npushers := s.npushers - 1)
    case LinkHead(t) => DoLinkHead(s, t)
    case LoadNext(t) => Move(s, t, LoadedNext(s.threads[t].obj, s.next[s.threads[t].obj]))
    case ScHead(t, spurious) => DoScHead(s, t, spurious)
    case CheckObject(t) =>
      var o := s.threads[t].obj;
      Move(s, t, CheckedPop(o)).(errors := s.errors + if s.onStack[o] == 0 then 1 else 0)
    case ReleaseObject(t) =>
      var o := s.threads[t].obj;
      Move(s, t, PopCheck).(onStack := s.onStack[o := 0], place := s.place[o := Free])
    case CheckPushers(t) => Move(s, t, if s.npushers == 0 then PopDone else PopIdle)
    case Lose(t) => s.(reserved := s.reserved - {t})
  }

  predicate IsRun(s: State, acts: seq<Action>)
    decreases acts
  {
    acts == [] || (Enabled(s, acts[0]) && IsRun(Do(s, acts[0]), acts[1..]))
  }

  function Exec(s: State, acts: seq<Action>): State
    requires IsRun(s, acts)
    decreases acts
  {
    if acts == [] then s else Exec(Do(s, acts[0]), acts[1..])
  }

  predicate Init(s: State) {
    && s.head == NO_OBJ && s.reserved == {} && s.log == [] && s.errors == 0
    && s.next.Keys == s.onStack.Keys == s.place.Keys
    && (forall o <- s.next :: o >= 0 && s.next[o] == NO_OBJ && s.onStack[o] == 0 && s.place[o] == Free)
    && (forall t <- s.threads ::
          s.threads[t] == PopIdle || (s.threads[t] == PushIdle && t in s.mine && s.mine[t] in s.next))
    && s.npushers == |Pushers(s)|
  }

  /** The threads that are still pushing. */
  function Pushers(s: State): set<Tid> {
    set t | t in s.threads && InPush(s.threads[t])
  }

  // ---------------------------------------------------------------- the invariant

  /** The i-th object of a chain, or its end. */
  function At(c: seq<Obj>, i: nat): Obj {
    if i < |c| then c[i] else NO_OBJ
  }

  /** From head, next leads through exactly these objects, each once, to the end. */
  ghost predicate IsChain(head: Obj, next: map<Obj, Obj>, c: seq<Obj>) {
    && head == At(c, 0)
    && (forall i :: 0 <= i < |c| ==> c[i] >= 0 && c[i] in next)
    && (forall i :: 0 <= i < |c| ==> next[c[i]] == At(c, i + 1))
    && (forall i, j :: 0 <= i < j < |c| ==> c[i] != c[j])
  }

  predicate PusherHolds(th: Thread) {
    th.Acquired? || th.LoadedHead? || th.StoredNext?
  }

  predicate PopperHolds(th: Thread) {
    th.Popped? || th.CheckedPop?
  }

  predicate InPush(th: Thread) {
    th.PushIdle? || PusherHolds(th)
  }

  /** on_stack says whether an object is free, and the objects of the chain are exactly the ones placed there. */
  ghost predicate Marked(s: State, c: seq<Obj>) {
    && s.next.Keys == s.onStack.Keys == s.place.Keys
    && (forall o <- s.next :: o >= 0 && s.onStack[o] == (if s.place[o] == Free then 0 else 1))
    && (forall o <- s.next :: o in c <==> s.place[o] == OnChain)
  }

  /** What a thread holds is placed with it. */
  ghost predicate Holding(s: State, t: Tid)
    requires t in s.threads
  {
    && (InPush(s.threads[t]) ==> t in s.mine && s.mine[t] in s.next && s.mine[t] in s.place)
    && (PusherHolds(s.threads[t]) ==> s.place[s.mine[t]] == WithPusher(t))
    && (PopperHolds(s.threads[t]) ==>
          s.threads[t].obj in s.next && s.threads[t].obj in s.place && s.place[s.threads[t].obj] == WithPopper(t))
  }

  /** What is placed with a thread is held by it. */
  ghost predicate Held(s: State, o: Obj)
    requires o in s.place
  {
    match s.place[o]
    case WithPusher(t) => t in s.threads && PusherHolds(s.threads[t]) && t in s.mine && s.mine[t] == o
    case WithPopper(t) => t in s.threads && PopperHolds(s.threads[t]) && s.threads[t].obj == o
    case _ => true
  }

  /** Every object is in exactly one place. */
  ghost predicate Placed(s: State, c: seq<Obj>) {
    && Marked(s, c)
    && (forall t <- s.threads :: Holding(s, t))
    && (forall o <- s.place :: Held(s, o))
  }

  /** A popper whose reservation stands holds the top, and its successor if it has read it. */
  ghost predicate KnownReserved(s: State, c: seq<Obj>) {
    forall t <- s.reserved :: t in s.threads
      && (s.threads[t].LinkedHead? || s.threads[t].LoadedNext? ==> c != [] && c[0] == s.threads[t].obj)
      && (s.threads[t].LoadedNext? ==> c[0] in s.next && s.next[c[0]] == s.threads[t].tmp)
  }

  /** What the threads know: a pusher about to CAS has stored next; a popper whose reservation stands
      holds the top, and its successor if it has read it. */
  ghost predicate Known(s: State, c: seq<Obj>) {
    && (forall t <- s.threads :: s.threads[t].StoredNext? ==>
          t in s.mine && s.mine[t] in s.next && s.next[s.mine[t]] == s.threads[t].tmp)
    && (forall t <- s.threads :: (s.threads[t].LinkedHead? || s.threads[t].LoadedNext?) ==> s.threads[t].obj in s.next)
    && KnownReserved(s, c)
  }

  ghost predicate InvAt(s: State, c: seq<Obj>) {
    IsChain(s.head, s.next, c) && Placed(s, c) && Known(s, c) && s.errors == 0
  }

  ghost predicate Inv(s: State) {
    Replay(s.log).Chain? && InvAt(s, Replay(s.log).objs)
  }

  lemma InitInv(s: State)
    requires Init(s)
    ensures Inv(s)
  {
  }

  lemma ReplayAppend(log: seq<StackOp>, op: StackOp)
    ensures Replay(log + [op]) ==
            match (Replay(log), op)
            case (Broken, _) => Broken
            case (Chain(c), Pushed(o)) => Chain([o] + c)
            case (Chain(c), Taken(o)) => if c != [] && c[0] == o then Chain(c[1..]) else Broken
  {
    assert (log + [op])[..|log|] == log;
  }

  lemma PushChain(head: Obj, next: map<Obj, Obj>, c: seq<Obj>, o: Obj)
    requires IsChain(head, next, c) && o >= 0 && o in next && o !in c && next[o] == head
    ensures IsChain(o, next, [o] + c)
  {
    var c' := [o] + c;
    forall i | 0 <= i < |c'|
      ensures next[c'[i]] == At(c', i + 1)
    {
      assert i > 0 ==> c'[i] == c[i - 1];
      assert At(c', i + 1) == At(c, i);
    }
  }

  lemma PopChain(head: Obj, next: map<Obj, Obj>, c: seq<Obj>)
    requires IsChain(head, next, c) && c != []
    ensures head == c[0] && IsChain(next[c[0]], next, c[1..])
  {
    var c' := c[1..];
    forall i | 0 <= i < |c'|
      ensures next[c'[i]] == At(c', i + 1)
    {
      assert c'[i] == c[i + 1];
      assert At(c', i + 1) == At(c, i + 2);
    }
  }

  /** Nothing is placed with a thread that holds nothing. */
  lemma EmptyHanded(s: State, t: Tid, c: seq<Obj>)
    requires Placed(s, c) && t in s.threads
    ensures forall o <- s.place ::
              && (s.place[o] == WithPusher(t) ==> PusherHolds(s.threads[t]) && t in s.mine && o == s.mine[t])
              && (s.place[o] == WithPopper(t) ==> PopperHolds(s.threads[t]) && o == s.threads[t].obj)
  {
    forall o <- s.place
      ensures s.place[o] == WithPusher(t) ==> PusherHolds(s.threads[t]) && t in s.mine && o == s.mine[t]
      ensures s.place[o] == WithPopper(t) ==> PopperHolds(s.threads[t]) && o == s.threads[t].obj
    {
      assert Held(s, o);
    }
  }

  /** A step that puts t into none of the places at which a thread knows something keeps what the others know. */
  lemma KeepKnown(s: State, s': State, t: Tid, c: seq<Obj>, c': seq<Obj>)
    requires Known(s, c) && t in s.threads && t in s'.threads && s'.threads == s.threads[t := s'.threads[t]]
    requires !s'.threads[t].StoredNext? && !s'.threads[t].LinkedHead? && !s'.threads[t].LoadedNext?
    requires s'.mine == s.mine && s'.next == s.next
    requires s'.reserved == {} || (s'.reserved == s.reserved && c' == c)
    ensures Known(s', c')
  {
  }

  lemma PushInv(s: State, t: Tid, c: seq<Obj>)
    requires InvAt(s, c) && Enabled(s, CasHead(t)) && s.head == s.threads[t].tmp
    ensures InvAt(DoCasHead(s, t), [s.mine[t]] + c)
  {
    var s', o := DoCasHead(s, t), s.mine[t];
    assert Holding(s, t);
    PushChain(s.head, s.next, c, o);
    EmptyHanded(s, t, c);
    StepPlaced(s, s', t, c, [o] + c);
    KeepKnown(s, s', t, c, [o] + c);
  }

  /** A store-conditional that succeeds takes the top: the reservation has stood since the load-link,
      so neither head nor the top's next has changed. */
  lemma PopInv(s: State, t: Tid, c: seq<Obj>)
    requires InvAt(s, c) && Enabled(s, ScHead(t, false)) && t in s.reserved
    ensures c != [] && c[0] == s.threads[t].obj
    ensures InvAt(DoScHead(s, t, false), c[1..])
  {
    var s' := DoScHead(s, t, false);
    assert Holding(s, t);
    PopChain(s.head, s.next, c);
    EmptyHanded(s, t, c);
    assert forall o :: o in c <==> o == c[0] || o in c[1..];
    StepPlaced(s, s', t, c, c[1..]);
    KeepKnown(s, s', t, c, c[1..]);
  }

  /** A pusher stores next of an object that is its own, so nobody's chain or successor changes. */
  lemma StoreInv(s: State, t: Tid, c: seq<Obj>)
    requires InvAt(s, c) && Enabled(s, StoreNext(t))
    ensures InvAt(Do(s, StoreNext(t)), c)
  {
    assert Holding(s, t);
    assert s.mine[t] !in c;
    StorePlaced(s, t, c);
    StoreKnown(s, t, c);
  }

  lemma StorePlaced(s: State, t: Tid, c: seq<Obj>)
    requires Placed(s, c) && Enabled(s, StoreNext(t)) && s.mine[t] in s.next
    ensures Placed(Do(s, StoreNext(t)), c)
  {
    var s' := Do(s, StoreNext(t));
    EmptyHanded(s, t, c);
    assert Holding(s, t);
    StepPlaced(s, s', t, c, c);
  }

  lemma StoreKnown(s: State, t: Tid, c: seq<Obj>)
    requires Known(s, c) && Placed(s, c) && Enabled(s, StoreNext(t)) && s.mine[t] in s.next && s.mine[t] !in c
    ensures Known(Do(s, StoreNext(t)), c)
  {
    var s' := Do(s, StoreNext(t));
    forall u <- s'.threads | s'.threads[u].StoredNext?
      ensures u in s'.mine && s'.mine[u] in s'.next && s'.next[s'.mine[u]] == s'.threads[u].tmp
    {
      assert Holding(s, u) && Holding(s, t);
    }
  }

  /** The places from which a step of t can take an object. */
  predicate MayLeave(p: Place, t: Tid) {
    p == Free || p == OnChain || p == WithPusher(t) || p == WithPopper(t)
  }

  /** A step of t that moves at most the object o into or out of t's hands leaves all other places right. */
  lemma StepPlaced(s: State, s': State, t: Tid, c: seq<Obj>, c': seq<Obj>)
    requires Placed(s, c) && Marked(s', c') && t in s.threads && t in s'.threads
    requires s'.threads == s.threads[t := s'.threads[t]] && s'.mine == s.mine && s'.next.Keys == s.next.Keys
    requires Holding(s', t)
    requires forall o <- s'.place :: o in s.place && (s'.place[o] == s.place[o] || MayLeave(s.place[o], t))
    requires forall o <- s'.place ::
               s'.place[o] == s.place[o] && (s.place[o] == WithPusher(t) || s.place[o] == WithPopper(t)) ==> Held(s', o)
    requires forall o <- s'.place :: s'.place[o] != s.place[o] ==> Held(s', o)
    ensures Placed(s', c')
  {
    forall u <- s'.threads
      ensures Holding(s', u)
    {
      assert Holding(s, u);
      if u != t && PusherHolds(s.threads[u]) {
        var o := s.mine[u];
        assert !MayLeave(WithPusher(u), t);
        assert o in s'.place && s.place[o] == WithPusher(u);
        assert s'.place[o] == s.place[o];
      }
      if u != t && PopperHolds(s.threads[u]) {
        assert s.threads[u].obj in s'.place && !MayLeave(s.place[s.threads[u].obj], t);
      }
    }
    forall o <- s'.place
      ensures Held(s', o)
    {
      assert Held(s, o);
    }
  }

  lemma AcquireInv(s: State, t: Tid, c: seq<Obj>)
    requires InvAt(s, c) && Enabled(s, Acquire(t))
    ensures InvAt(DoAcquire(s, t), c)
  {
    var s' := DoAcquire(s, t);
    assert Holding(s, t);
    forall o <- s.place
      ensures s.place[o] != WithPusher(t) && s.place[o] != WithPopper(t)
    {
      assert Held(s, o);
    }
    if s.onStack[s.mine[t]] == 0 {
      assert s.mine[t] !in c;
      StepPlaced(s, s', t, c, c);
      KeepKnown(s, s', t, c, c);
    }
  }

  lemma ReleaseInv(s: State, t: Tid, c: seq<Obj>)
    requires InvAt(s, c) && Enabled(s, ReleaseObject(t))
    ensures InvAt(Do(s, ReleaseObject(t)), c)
  {
    var s' := Do(s, ReleaseObject(t));
    assert Holding(s, t);
    forall o <- s.place
      ensures s.place[o] != WithPusher(t) && (s.place[o] == WithPopper(t) ==> o == s.threads[t].obj)
    {
      assert Held(s, o);
    }
    StepPlaced(s, s', t, c, c);
    KeepKnown(s, s', t, c, c);
  }

  predicate OnlyMoves(a: Action) {
    !a.StoreNext? && !a.Acquire? && !a.ReleaseObject?
  }

  /** Steps that touch no object. */
  lemma MoveKnown(s: State, a: Action, c: seq<Obj>)
    requires InvAt(s, c) && Enabled(s, a) && OnlyMoves(a)
    requires a.CasHead? ==> s.head != s.threads[a.t].tmp
    requires a.ScHead? ==> a.t !in s.reserved || a.spurious
    ensures Known(Do(s, a), c) && IsChain(Do(s, a).head, Do(s, a).next, c) && Do(s, a).errors == 0
  {
    MoveFrame(s, a);
    assert Holding(s, a.t);
    if a.CheckObject? {
      assert s.onStack[s.threads[a.t].obj] == 1;
    }
    MoveReserved(s, a, c);
  }

  lemma MoveReserved(s: State, a: Action, c: seq<Obj>)
    requires IsChain(s.head, s.next, c) && KnownReserved(s, c) && Enabled(s, a) && OnlyMoves(a)
    requires a.CasHead? ==> s.head != s.threads[a.t].tmp
    requires a.ScHead? ==> a.t !in s.reserved || a.spurious
    ensures KnownReserved(Do(s, a), c)
  {
    MoveFrame(s, a);
  }

  lemma MoveFrame(s: State, a: Action)
    requires Enabled(s, a) && OnlyMoves(a)
    requires a.CasHead? ==> s.head != s.threads[a.t].tmp
    requires a.ScHead? ==> a.t !in s.reserved || a.spurious
    ensures var s' := Do(s, a);
            && a.t in s'.threads && s'.threads == s.threads[a.t := s'.threads[a.t]]
            && s'.mine == s.mine && s'.head == s.head && s'.next == s.next
            && s'.onStack == s.onStack && s'.place == s.place && s'.log == s.log
            && PusherHolds(s'.threads[a.t]) == PusherHolds(s.threads[a.t])
            && PopperHolds(s'.threads[a.t]) == PopperHolds(s.threads[a.t])
            && (InPush(s'.threads[a.t]) ==> InPush(s.threads[a.t]))
            && (PopperHolds(s.threads[a.t]) ==> s'.threads[a.t].obj == s.threads[a.t].obj)
  {
  }

  lemma MoveInv(s: State, a: Action, c: seq<Obj>)
    requires InvAt(s, c) && Enabled(s, a) && OnlyMoves(a)
    requires a.CasHead? ==> s.head != s.threads[a.t].tmp
    requires a.ScHead? ==> a.t !in s.reserved || a.spurious
    ensures InvAt(Do(s, a), c)
  {
    MoveKnown(s, a, c);
    MoveFrame(s, a);
    MovePlaced(s, Do(s, a), a.t, c);
  }

  lemma MovePlaced(s: State, s': State, t: Tid, c: seq<Obj>)
    requires Placed(s, c) && t in s.threads && t in s'.threads && s'.threads == s.threads[t := s'.threads[t]]
    requires s'.mine == s.mine && s'.next == s.next && s'.onStack == s.onStack && s'.place == s.place
    requires PusherHolds(s'.threads[t]) == PusherHolds(s.threads[t])
    requires PopperHolds(s'.threads[t]) == PopperHolds(s.threads[t])
    requires InPush(s'.threads[t]) ==> InPush(s.threads[t])
    requires PopperHolds(s.threads[t]) ==> s'.threads[t].obj == s.threads[t].obj
    ensures Placed(s', c)
  {
    assert Holding(s, t);
    forall o <- s.place
      ensures Held(s', o)
    {
      assert Held(s, o);
    }
    StepPlaced(s, s', t, c, c);
  }

  /** Every other step leaves the chain as it is. */
  lemma QuietInv(s: State, a: Action, c: seq<Obj>)
    requires InvAt(s, c) && Enabled(s, a)
    requires a.CasHead? ==> s.head != s.threads[a.t].tmp
    requires a.ScHead? ==> a.t !in s.reserved || a.spurious
    ensures InvAt(Do(s, a), c) && Do(s, a).log == s.log
  {
    match a
    case StoreNext(t) => StoreInv(s, t, c);
    case Acquire(t) => AcquireInv(s, t, c);
    case ReleaseObject(t) => ReleaseInv(s, t, c);
    case _ => MoveInv(s, a, c);
  }

  lemma StepInv(s: State, a: Action)
    requires Inv(s) && Enabled(s, a)
    ensures Inv(Do(s, a))
  {
    var c := Replay(s.log).objs;
    if a.CasHead? && s.head == s.threads[a.t].tmp {
      PushInv(s, a.t, c);
      ReplayAppend(s.log, Pushed(s.mine[a.t]));
    } else if a.ScHead? && a.t in s.reserved && !a.spurious {
      PopInv(s, a.t, c);
      ReplayAppend(s.log, Taken(s.threads[a.t].obj));
    } else {
      QuietInv(s, a, c);
    }
  }

  // ---------------------------------------------------------------- what the test checks

  lemma {:induction false} RunInv(s: State, acts: seq<Action>)
    requires Inv(s) && IsRun(s, acts)
    ensures Inv(Exec(s, acts))
    decreases acts
  {
    if acts != [] {
      StepInv(s, acts[0]);
      RunInv(Do(s, acts[0]), acts[1..]);
    }
  }

  function Pushes(log: seq<StackOp>): nat {
    if log == [] then 0 else Pushes(log[..|log| - 1]) + if log[|log| - 1].Pushed? then 1 else 0
  }

  lemma {:induction false} Balance(log: seq<StackOp>)
    requires Replay(log).Chain?
    ensures Pushes(log) <= |log|
    ensures Pushes(log) - (|log| - Pushes(log)) == |Replay(log).objs|
    decreases |log|
  {
    if log != [] {
      Balance(log[..|log| - 1]);
    }
  }

  /** For every number of pushers, poppers and objects, every interleaving and every spurious failure: the
      successful pushes and pops are those of a last-in-first-out stack; the chain from head is exactly its
      contents, finite and without repetition; successful pushes minus successful pops is its length; every object
      is in one place, and on_stack agrees; and no popper ever finds on_stack clear. */
  lemma StackIsConsistent(s0: State, acts: seq<Action>)
    requires Init(s0) && IsRun(s0, acts)
    ensures var s := Exec(s0, acts);
            && Replay(s.log).Chain?
            && IsChain(s.head, s.next, Replay(s.log).objs)
            && Placed(s, Replay(s.log).objs)
            && Pushes(s.log) - (|s.log| - Pushes(s.log)) == |Replay(s.log).objs|
            && s.errors == 0
  {
    InitInv(s0);
    RunInv(s0, acts);
    Balance(Exec(s0, acts).log);
  }

  /** When all threads are done, exactly the objects of the chain have on_stack set. */
  lemma QuietStack(s: State)
    requires Inv(s) && forall t <- s.threads :: s.threads[t] == PushDone || s.threads[t] == PopDone
    ensures forall o <- s.next :: o in s.onStack && s.onStack[o] == (if o in Replay(s.log).objs then 1 else 0)
  {
    var c := Replay(s.log).objs;
    forall o <- s.next
      ensures o in s.onStack && s.onStack[o] == (if o in c then 1 else 0)
    {
      assert Held(s, o);
    }
  }
}
