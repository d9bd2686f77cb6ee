/**
 What the lock-order check is worth when its handler returns and threads carry on: as long as no held
 list has overflowed, a set of threads can only block one another if one of them was reported at the very
 acquisition it is blocked on.
*/
module LockReports {
  import opened LockOrder
  import opened LockProtocol
  import opened Wrappers

  // ---------------------------------------------------------------- counting levels

  function One(here: bool): nat {
    if here then 1 else 0
  }

  /** How often level l is on the list. */
  function Occurs(held: seq<int>, l: int): nat {
    if held == [] then 0 else Occurs(held[..|held| - 1], l) + One(held[|held| - 1] == l)
  }

  lemma {:induction false} OccursIffIn(held: seq<int>, l: int)
    ensures Occurs(held, l) > 0 <==> l in held
  {
    if held != [] {
      var front, last := held[..|held| - 1], held[|held| - 1];
      OccursIffIn(front, l);
      assert held == front + [last];
    }
  }

  lemma OccursSnoc(held: seq<int>, last: int, l: int)
    ensures Occurs(held + [last], l) == Occurs(held, l) + One(last == l)
  {
    assert (held + [last])[..|held|] == held;
  }

  /** Removing takes away one entry of the level, if there is one. */
  lemma {:induction false} RemovedOccurs(held: seq<int>, l: int, x: int)
    ensures Occurs(Removed(held, l), x) == Occurs(held, x) - One(x == l && Occurs(held, l) > 0)
  {
    if held != [] {
      var front, last := held[..|held| - 1], held[|held| - 1];
      if last != l {
        RemovedOccurs(front, l, x);
        OccursSnoc(Removed(front, l), last, x);
      }
    }
  }

  /** How many of the mutexes below n are owned by thread t and have level l. */
  function Owned(levels: seq<int>, owner: seq<Option<nat>>, t: nat, l: int, n: nat): nat
    requires n <= |owner| == |levels|
  {
    if n == 0 then 0 else Owned(levels, owner, t, l, n - 1) + One(owner[n - 1] == Some(t) && levels[n - 1] == l)
  }

  /** Mutex m changes hands. */
  lemma {:induction false} OwnedUpdate(levels: seq<int>, owner: seq<Option<nat>>, t: nat, l: int, n: nat, m: nat, x: Option<nat>)
    requires n <= |owner| == |levels| && m < |owner|
    ensures Owned(levels, owner[m := x], t, l, n)
         == Owned(levels, owner, t, l, n) + One(m < n && levels[m] == l && x == Some(t)) - One(m < n && levels[m] == l && owner[m] == Some(t))
  {
    if n > 0 { OwnedUpdate(levels, owner, t, l, n - 1, m, x); }
  }

  lemma {:induction false} OwnedIsCounted(levels: seq<int>, owner: seq<Option<nat>>, t: nat, n: nat, m: nat)
    requires m < n <= |owner| == |levels| && owner[m] == Some(t)
    ensures Owned(levels, owner, t, levels[m], n) > 0
  {
    if m < n - 1 { OwnedIsCounted(levels, owner, t, n - 1, m); }
  }

  /** The entry of the mutex a thread is waiting for, or has released but not yet forgotten. */
  function PendingAt(s: Sys, t: nat, l: int): nat
    requires s.Shape() && t < |s.threads|
  {
    One(Pending(s, t, l))
  }

  // ---------------------------------------------------------------- the invariant

  /** The list holds the levels of the owned mutexes and the pending one, each as often as it is held. */
  ghost predicate Recorded1(s: Sys, t: nat)
    requires s.Shape() && t < |s.threads|
  {
    forall l :: Occurs(s.threads[t].held, l) == Owned(s.levels, s.owner, t, l, |s.owner|) + PendingAt(s, t, l)
  }

  /** A thread waiting on an unreported acquisition owns only lower mutexes. */
  ghost predicate ClimbsUnlessReported(s: Sys, t: nat)
    requires s.Shape() && t < |s.threads|
  {
    var me := s.threads[t];
    me.pc.Waiting? && me.pc.m < |s.levels| && !me.reported ==>
      forall k: nat :: s.Owns(t, k) ==> s.levels[k] < s.levels[me.pc.m]
  }

  ghost predicate Tracked(s: Sys) {
    && s.Shape()
    && (forall m :: 0 <= m < |s.owner| && s.owner[m].Some? ==> s.owner[m].value < |s.threads|)
    && (!s.overflowed ==> forall t :: 0 <= t < |s.threads| ==> Recorded1(s, t) && ClimbsUnlessReported(s, t))
  }

  lemma OthersStayTracked(s: Sys, a: Step, t: nat)
    requires Tracked(s) && Enabled(s, a) && t < |s.threads| && t != a.t && !s.overflowed
    ensures Next(s, a).Shape() && Recorded1(Next(s, a), t) && ClimbsUnlessReported(Next(s, a), t)
  {
    var n := Next(s, a);
    assert n.threads[t] == s.threads[t] && n.levels == s.levels;
    assert Recorded1(s, t) && ClimbsUnlessReported(s, t);
    forall k: nat
      ensures n.Owns(t, k) <==> s.Owns(t, k)
    {
    }
    forall l
      ensures Owned(n.levels, n.owner, t, l, |n.owner|) == Owned(s.levels, s.owner, t, l, |s.owner|)
    {
      if a.Acquire? { OwnedUpdate(s.levels, s.owner, t, l, |s.owner|, s.threads[a.t].pc.m, Some(a.t)); }
      if a.Unlock? { OwnedUpdate(s.levels, s.owner, t, l, |s.owner|, a.m, None); }
    }
    hide Owned, Occurs, Next;
  }

  lemma CheckTracks(s: Sys, t: nat, m: nat)
    requires Tracked(s) && Enabled(s, Check(t, m)) && !s.overflowed && |s.threads[t].held| < MAX_HELD
    ensures var n := Next(s, Check(t, m)); n.Shape() && Recorded1(n, t) && ClimbsUnlessReported(n, t)
  {
    var n, held := Next(s, Check(t, m)), s.threads[t].held;
    assert Recorded1(s, t);
    assert n.threads[t].held == held + [s.levels[m]];
    forall k: nat | n.Owns(t, k)
      ensures s.levels[k] in held
    {
      assert s.Owns(t, k);
      OwnedIsCounted(s.levels, s.owner, t, |s.owner|, k);
      OccursIffIn(held, s.levels[k]);
    }
    hide Owned, Occurs;
    forall l
      ensures Occurs(n.threads[t].held, l) == Owned(n.levels, n.owner, t, l, |n.owner|) + PendingAt(n, t, l)
    {
      OccursSnoc(held, s.levels[m], l);
      assert Occurs(held, l) == Owned(s.levels, s.owner, t, l, |s.owner|) + PendingAt(s, t, l);
    }
  }

  lemma AcquireTracks(s: Sys, t: nat)
    requires Tracked(s) && Enabled(s, Acquire(t)) && !s.overflowed
    ensures var n := Next(s, Acquire(t)); n.Shape() && Recorded1(n, t) && ClimbsUnlessReported(n, t)
  {
    var n := Next(s, Acquire(t));
    assert Recorded1(s, t);
    hide Owned, Occurs;
    forall l
      ensures Occurs(n.threads[t].held, l) == Owned(n.levels, n.owner, t, l, |n.owner|) + PendingAt(n, t, l)
    {
      OwnedUpdate(s.levels, s.owner, t, l, |s.owner|, s.threads[t].pc.m, Some(t));
      assert Occurs(s.threads[t].held, l) == Owned(s.levels, s.owner, t, l, |s.owner|) + PendingAt(s, t, l);
    }
  }

  lemma UnlockTracks(s: Sys, t: nat, m: nat)
    requires Tracked(s) && Enabled(s, Unlock(t, m)) && !s.overflowed
    ensures var n := Next(s, Unlock(t, m)); n.Shape() && Recorded1(n, t) && ClimbsUnlessReported(n, t)
  {
    var n := Next(s, Unlock(t, m));
    assert Recorded1(s, t);
    hide Owned, Occurs;
    forall l
      ensures Occurs(n.threads[t].held, l) == Owned(n.levels, n.owner, t, l, |n.owner|) + PendingAt(n, t, l)
    {
      OwnedUpdate(s.levels, s.owner, t, l, |s.owner|, m, None);
      assert Occurs(s.threads[t].held, l) == Owned(s.levels, s.owner, t, l, |s.owner|) + PendingAt(s, t, l);
    }
  }

  lemma ForgetTracks(s: Sys, t: nat)
    requires Tracked(s) && Enabled(s, Forget(t)) && !s.overflowed
    ensures var n := Next(s, Forget(t)); n.Shape() && Recorded1(n, t) && ClimbsUnlessReported(n, t)
  {
    var n, held, gone := Next(s, Forget(t)), s.threads[t].held, s.levels[s.threads[t].pc.m];
    assert Recorded1(s, t);
    hide Owned, Occurs, Removed;
    assert Occurs(held, gone) == Owned(s.levels, s.owner, t, gone, |s.owner|) + PendingAt(s, t, gone);
    forall l
      ensures Occurs(n.threads[t].held, l) == Owned(n.levels, n.owner, t, l, |n.owner|) + PendingAt(n, t, l)
    {
      RemovedOccurs(held, gone, l);
      assert Occurs(held, l) == Owned(s.levels, s.owner, t, l, |s.owner|) + PendingAt(s, t, l);
    }
  }

  /** Every step keeps it, reports included. */
  lemma StepTracks(s: Sys, a: Step)
    requires Tracked(s) && Enabled(s, a)
    ensures Tracked(Next(s, a))
  {
    var n := Next(s, a);
    OwnersStayThreads(s, a);
    if !n.overflowed {
      match a {
        case Check(t, m) => CheckTracks(s, t, m);
        case Acquire(t) => AcquireTracks(s, t);
        case Unlock(t, m) => UnlockTracks(s, t, m);
        case Forget(t) => ForgetTracks(s, t);
      }
      hide Recorded1, ClimbsUnlessReported;
      forall t | 0 <= t < |n.threads|
        ensures Recorded1(n, t) && ClimbsUnlessReported(n, t)
      {
        if t != a.t { OthersStayTracked(s, a, t); }
      }
    }
  }

  lemma OwnersStayThreads(s: Sys, a: Step)
    requires Tracked(s) && Enabled(s, a)
    ensures var n := Next(s, a);
            && n.Shape() && |n.threads| == |s.threads| && (s.overflowed ==> n.overflowed)
            && forall m :: 0 <= m < |n.owner| && n.owner[m].Some? ==> n.owner[m].value < |n.threads|
  {
    hide Recorded1, ClimbsUnlessReported;
  }

  lemma {:induction false} RunTracks(s: Sys, run: seq<Step>)
    requires Tracked(s) && IsRun(s, run)
    ensures Tracked(End(s, run))
    decreases |run|
  {
    if run != [] {
      StepTracks(s, run[0]);
      RunTracks(Next(s, run[0]), run[1..]);
    }
  }

  lemma {:induction false} NobodyOwns(levels: seq<int>, owner: seq<Option<nat>>, t: nat, l: int, n: nat)
    requires n <= |owner| == |levels| && forall m :: 0 <= m < |owner| ==> owner[m] == None
    ensures Owned(levels, owner, t, l, n) == 0
  {
    if n > 0 { NobodyOwns(levels, owner, t, l, n - 1); }
  }

  lemma ReachableTracked(s: Sys)
    requires Reachable(s)
    ensures Tracked(s)
  {
    var levels: seq<int>, n: nat, run: seq<Step> :|
      && (forall m :: 0 <= m < |levels| ==> 1 <= levels[m] <= TOP_LEVEL)
      && IsRun(Init(levels, n), run) && s == End(Init(levels, n), run);
    var i := Init(levels, n);
    forall t | 0 <= t < n
      ensures Recorded1(i, t) && ClimbsUnlessReported(i, t)
    {
      forall l
        ensures Occurs(i.threads[t].held, l) == Owned(i.levels, i.owner, t, l, |i.owner|) + PendingAt(i, t, l)
      {
        NobodyOwns(i.levels, i.owner, t, l, |i.owner|);
      }
    }
    RunTracks(i, run);
  }

  // ---------------------------------------------------------------- mutually blocked threads

  /** Every thread of the set waits for a mutex that a thread of the set owns. */
  ghost predicate MutuallyBlocked(s: Sys, stuck: set<nat>) {
    s.Shape() && forall t :: t in stuck ==>
      && t < |s.threads| && s.threads[t].pc.Waiting? && s.threads[t].pc.m < |s.owner|
      && s.owner[s.threads[t].pc.m].Some? && s.owner[s.threads[t].pc.m].value in stuck
  }

  /** From owner to owner the levels climb past every unreported waiter, so a reported one is met. */
  lemma {:induction false} FindReported(s: Sys, stuck: set<nat>, t: nat) returns (r: nat)
    requires Tracked(s) && !s.overflowed && MutuallyBlocked(s, stuck) && t in stuck
    ensures r in stuck && r < |s.threads| && s.threads[r].reported
    decreases TOP_LEVEL - s.levels[s.threads[t].pc.m]
  {
    var m := s.threads[t].pc.m;
    var u := s.owner[m].value;
    if s.threads[u].reported {
      r := u;
    } else {
      assert ClimbsUnlessReported(s, u) && s.Owns(u, m);
      r := FindReported(s, stuck, u);
    }
  }

  /**
   In every reachable state, whatever has been reported: a set of threads that block one another
   contains one whose pending acquisition was itself reported.
  */
  lemma DeadlockWasReported(s: Sys, stuck: set<nat>)
    requires Reachable(s) && !s.overflowed && MutuallyBlocked(s, stuck) && stuck != {}
    ensures exists r :: r in stuck && r < |s.threads| && s.threads[r].pc.Waiting? && s.threads[r].reported
  {
    ReachableTracked(s);
    var t :| t in stuck;
    var r := FindReported(s, stuck, t);
  }
}
