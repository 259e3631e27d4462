/** The end of the stack test: npushers counts the threads that are still pushing, and a popper stays as long as
    there is one. */
module StackPushers {
  import opened LlscStack

  predicate IsPusher(th: Thread) {
    InPush(th) || th.PushDone?
  }

  /** A step moves one thread, which stays a pusher or a popper; only the end of a push routine changes who is
      pushing. */
  lemma PushersStep(s: State, a: Action)
    requires Enabled(s, a)
    ensures var s' := Do(s, a);
            && s'.threads.Keys == s.threads.Keys
            && (forall t <- s.threads :: t != a.t ==> s'.threads[t] == s.threads[t])
            && IsPusher(s'.threads[a.t]) == IsPusher(s.threads[a.t])
            && InPush(s'.threads[a.t]) == (InPush(s.threads[a.t]) && !a.StopPushing?)
            && (a.StopPushing? ==> InPush(s.threads[a.t]))
            && s'.npushers == s.npushers - if a.StopPushing? then 1 else 0
  {
    if a.Acquire? || a.LoadHead? || a.StoreNext? || a.CasHead? || a.StopPushing? {
      PusherMoves(s, a);
    } else {
      PopperMoves(s, a);
    }
  }

  lemma PusherMoves(s: State, a: Action)
    requires Enabled(s, a) && (a.Acquire? || a.LoadHead? || a.StoreNext? || a.CasHead? || a.StopPushing?)
    ensures InPush(s.threads[a.t]) && a.t in Do(s, a).threads
    ensures Do(s, a).threads == s.threads[a.t := Do(s, a).threads[a.t]]
    ensures if a.StopPushing? then Do(s, a).threads[a.t].PushDone? else InPush(Do(s, a).threads[a.t])
    ensures Do(s, a).npushers == s.npushers - if a.StopPushing? then 1 else 0
  {
  }

  lemma PopperMoves(s: State, a: Action)
    requires Enabled(s, a) && !a.Acquire? && !a.LoadHead? && !a.StoreNext? && !a.CasHead? && !a.StopPushing?
    ensures a.t in Do(s, a).threads && Do(s, a).npushers == s.npushers
    ensures Do(s, a).threads == s.threads[a.t := Do(s, a).threads[a.t]]
    ensures if a.Lose? then Do(s, a).threads == s.threads
            else !IsPusher(s.threads[a.t]) && !IsPusher(Do(s, a).threads[a.t])
  {
  }

  lemma PushersShrink(s: State, a: Action)
    requires Enabled(s, a)
    ensures Pushers(Do(s, a)) == if a.StopPushing? then Pushers(s) - {a.t} else Pushers(s)
    ensures |Pushers(Do(s, a))| == |Pushers(s)| - if a.StopPushing? then 1 else 0
  {
    PushersStep(s, a);
    if a.StopPushing? {
      assert a.t in Pushers(s);
      assert Pushers(Do(s, a)) == Pushers(s) - {a.t};
    } else {
      assert Pushers(Do(s, a)) == Pushers(s);
    }
  }

  /** npushers is the number of the pushers that are not done; no popper is done before them. */
  ghost predicate Counted(s0: State, s: State) {
    && s.threads.Keys == s0.threads.Keys
    && (forall t <- s.threads :: IsPusher(s.threads[t]) == IsPusher(s0.threads[t]))
    && s.npushers == |Pushers(s)|
    && (forall t <- s.threads :: s.threads[t].PopDone? ==> Pushers(s) == {})
  }

  /** Only the check of npushers ends a pop routine, and exactly if it finds 0. */
  lemma PopEnds(s: State, a: Action)
    requires Enabled(s, a)
    ensures Do(s, a).threads[a.t].PopDone? ==> s.threads[a.t].PopDone? || (a.CheckPushers? && s.npushers == 0)
    ensures a.CheckPushers? && s.npushers == 0 ==> Do(s, a).threads[a.t].PopDone?
  {
  }

  lemma StepCounted(s0: State, s: State, a: Action)
    requires Counted(s0, s) && Enabled(s, a)
    ensures Counted(s0, Do(s, a))
  {
    PushersStep(s, a);
    PushersShrink(s, a);
    PopEnds(s, a);
  }

  lemma {:induction false} RunCounted(s0: State, s: State, acts: seq<Action>)
    requires Counted(s0, s) && IsRun(s, acts)
    ensures Counted(s0, Exec(s, acts))
    decreases acts
  {
    if acts != [] {
      StepCounted(s0, s, acts[0]);
      RunCounted(s0, Do(s, acts[0]), acts[1..]);
    }
  }

  /** Every thread that started as a pusher is done. */
  predicate AllPushed(s0: State, s: State) {
    forall u <- s0.threads :: s0.threads[u].PushIdle? ==> u in s.threads && s.threads[u].PushDone?
  }

  lemma NobodyPushes(s0: State, s: State)
    requires Init(s0) && Counted(s0, s)
    ensures Pushers(s) == {} <==> AllPushed(s0, s)
  {
    if Pushers(s) == {} {
      forall u <- s0.threads | s0.threads[u].PushIdle?
        ensures u in s.threads && s.threads[u].PushDone?
      {
        assert IsPusher(s.threads[u]) && u !in Pushers(s);
      }
    } else {
      var u :| u in Pushers(s);
      assert IsPusher(s0.threads[u]);
    }
  }

  /** In every run npushers is the number of pushers that are not done, and a popper is done only when all of them
      are. */
  lemma PoppersOutlast(s0: State, acts: seq<Action>)
    requires Init(s0) && IsRun(s0, acts)
    ensures var s := Exec(s0, acts);
            && s.npushers == |Pushers(s)|
            && (s.npushers == 0 <==> AllPushed(s0, s))
            && (forall t <- s.threads :: s.threads[t].PopDone? ==> AllPushed(s0, s))
  {
    RunCounted(s0, s0, acts);
    NobodyPushes(s0, Exec(s0, acts));
  }

  /** A popper's check ends its routine if all pushers are done, and sends it back to the next pop if not. */
  lemma CheckDecides(s0: State, acts: seq<Action>, t: Tid)
    requires Init(s0) && IsRun(s0, acts) && Enabled(Exec(s0, acts), CheckPushers(t))
    ensures var s := Exec(s0, acts);
            Do(s, CheckPushers(t)).threads[t] == if AllPushed(s0, s) then PopDone else PopIdle
  {
    PoppersOutlast(s0, acts);
  }
}
