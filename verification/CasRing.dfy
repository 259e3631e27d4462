/**
 The compare-and-swap test: threads in groups pass a shared number around a ring; a thread of group g
 tries to change g into the next group's number and counts its successes.
 */
module CasRing {

  /** The successes of all threads of group g. */
  function GroupTotal(group: seq<nat>, nsuccess: seq<nat>, g: nat): nat
    requires |group| == |nsuccess|
  {
    if group == [] then 0
    else GroupTotal(group[1..], nsuccess[1..], g) + if group[0] == g then nsuccess[0] else 0
  }

  lemma {:induction false} TotalUpdate(group: seq<nat>, nsuccess: seq<nat>, t: nat, g: nat)
    requires |group| == |nsuccess| && t < |group|
    ensures GroupTotal(group, nsuccess[t := nsuccess[t] + 1], g)
         == GroupTotal(group, nsuccess, g) + if group[t] == g then 1 else 0
    decreases |group|
  {
    var n' := nsuccess[t := nsuccess[t] + 1];
    if t == 0 {
      assert n'[1..] == nsuccess[1..];
    } else {
      assert n'[1..] == nsuccess[1..][t - 1 := nsuccess[1..][t - 1] + 1];
      TotalUpdate(group[1..], nsuccess[1..], t - 1, g);
    }
  }

  lemma {:induction false} TotalZero(group: seq<nat>, nsuccess: seq<nat>, g: nat)
    requires |group| == |nsuccess| && forall t :: 0 <= t < |nsuccess| ==> nsuccess[t] == 0
    ensures GroupTotal(group, nsuccess, g) == 0
    decreases |group|
  {
    if group != [] {
      TotalZero(group[1..], nsuccess[1..], g);
    }
  }

  /** The number has gone round k times and then reached v: the groups it has passed since have one success more. */
  ghost predicate Balanced(n: nat, v: nat, group: seq<nat>, nsuccess: seq<nat>, k: nat)
    requires |group| == |nsuccess|
  {
    v < n && forall g :: 0 <= g < n ==> GroupTotal(group, nsuccess, g) == k + if g < v then 1 else 0
  }

  /** A success moves the number on by one group and keeps the balance. */
  lemma BalancedStep(n: nat, group: seq<nat>, was: seq<nat>, t: nat, k: nat)
    requires |group| == |was| && t < |group| && group[t] < n && Balanced(n, group[t], group, was, k)
    ensures var v' := (group[t] + 1) % n;
            Balanced(n, v', group, was[t := was[t] + 1], if v' == 0 then k + 1 else k)
  {
    var v' := (group[t] + 1) % n;
    assert v' == if group[t] + 1 == n then 0 else group[t] + 1;
    var now := was[t := was[t] + 1];
    forall g | 0 <= g < n
      ensures GroupTotal(group, now, g) == (if v' == 0 then k + 1 else k) + if g < v' then 1 else 0
    {
      TotalUpdate(group, was, t, g);
      assert GroupTotal(group, was, g) == k + if g < group[t] then 1 else 0;
    }
  }

  predicate IsSchedule(group: seq<nat>, schedule: seq<nat>) {
    forall i :: 0 <= i < |schedule| ==> schedule[i] < |group|
  }

  /** The shared number after these turns: it moves on at each turn of a thread whose group it is. */
  function ValueAfter(n: nat, v: nat, group: seq<nat>, schedule: seq<nat>): nat
    requires n > 0 && IsSchedule(group, schedule)
  {
    if schedule == [] then v
    else
      var before := ValueAfter(n, v, group, schedule[..|schedule| - 1]);
      if group[schedule[|schedule| - 1]] == before then (before + 1) % n else before
  }

  /** How many of these turns thread t has taken while the number was its group's. */
  function WinsOf(n: nat, v: nat, group: seq<nat>, schedule: seq<nat>, t: nat): nat
    requires n > 0 && IsSchedule(group, schedule) && t < |group|
  {
    if schedule == [] then 0
    else
      var before := schedule[..|schedule| - 1];
      WinsOf(n, v, group, before, t)
      + if schedule[|schedule| - 1] == t && ValueAfter(n, v, group, before) == group[t] then 1 else 0
  }

  class Ring {
    const ngroups: nat
    const group: seq<nat>
    var sharedVal: nat
    const nsuccess: array<nat>

    ghost predicate Valid()
      reads this, nsuccess
    {
      && nsuccess.Length == |group|
      && (forall t :: 0 <= t < |group| ==> group[t] < ngroups)
      && exists k :: Balanced(ngroups, sharedVal, group, nsuccess[..], k)
    }

    constructor (ngroups: nat, group: seq<nat>)
      requires ngroups > 0 && forall t :: 0 <= t < |group| ==> group[t] < ngroups
      ensures Valid() && fresh(nsuccess) && this.ngroups == ngroups && this.group == group
    {
      this.ngroups := ngroups;
      this.group := group;
      sharedVal := 0;
      nsuccess := new nat[|group|](_ => 0);
      new;
      forall g | 0 <= g < ngroups
        ensures GroupTotal(group, nsuccess[..], g) == 0
      {
        TotalZero(group, nsuccess[..], g);
      }
      assert Balanced(ngroups, sharedVal, group, nsuccess[..], 0);
    }

    /** One iteration of a thread's loop: an atomic compare-and-swap, and the count. */
    method Attempt(t: nat)
      requires Valid() && t < |group|
      modifies this, nsuccess
      ensures Valid()
      ensures if old(sharedVal) == group[t]
              then sharedVal == (group[t] + 1) % ngroups && nsuccess[..] == old(nsuccess[..])[t := old(nsuccess[t]) + 1]
              else sharedVal == old(sharedVal) && nsuccess[..] == old(nsuccess[..])
    {
      ghost var was := nsuccess[..];
      ghost var k: nat :| Balanced(ngroups, sharedVal, group, was, k);
      var nextId := (group[t] + 1) % ngroups;
      if sharedVal == group[t] {
        BalancedStep(ngroups, group, was, t, k);
        sharedVal := nextId;
        nsuccess[t] := nsuccess[t] + 1;
        assert nsuccess[..] == was[t := was[t] + 1];
      }
    }

    /** Any interleaving of any number of iterations of all threads: every turn that finds its own number counts. */
    method Run(schedule: seq<nat>)
      requires Valid() && IsSchedule(group, schedule)
      modifies this, nsuccess
      ensures Valid()
      ensures sharedVal == ValueAfter(ngroups, old(sharedVal), group, schedule)
      ensures forall t :: 0 <= t < |group| ==>
                nsuccess[t] == old(nsuccess[t]) + WinsOf(ngroups, old(sharedVal), group, schedule, t)
    {
      for i := 0 to |schedule|
        invariant Valid()
        invariant sharedVal == ValueAfter(ngroups, old(sharedVal), group, schedule[..i])
        invariant forall t :: 0 <= t < |group| ==>
                    nsuccess[t] == old(nsuccess[t]) + WinsOf(ngroups, old(sharedVal), group, schedule[..i], t)
      {
        assert schedule[..i + 1][..i] == schedule[..i];
        Attempt(schedule[i]);
        assert forall t :: 0 <= t < |group| ==> nsuccess[t] == nsuccess[..][t];
      }
      assert schedule[..|schedule|] == schedule;
    }
  }

  /** What the test looks for: totals do not increase from group to group, they drop only at the shared value,
      and the first is at most one more than the last. */
  lemma PassesChecks(n: nat, v: nat, group: seq<nat>, nsuccess: seq<nat>, k: nat)
    requires |group| == |nsuccess| && Balanced(n, v, group, nsuccess, k)
    ensures forall g, h :: 0 <= g && h == g + 1 < n ==>
              && GroupTotal(group, nsuccess, h) <= GroupTotal(group, nsuccess, g)
              && (GroupTotal(group, nsuccess, h) < GroupTotal(group, nsuccess, g) ==> v == h)
    ensures GroupTotal(group, nsuccess, 0) == GroupTotal(group, nsuccess, n - 1) ==> v == 0
    ensures GroupTotal(group, nsuccess, 0) <= GroupTotal(group, nsuccess, n - 1) + 1
  {
  }
}
