/**
 Any number of threads running OrderedMutex::lock and unlock over any number of mutexes. The list
 is updated before the wait in lock and after the release in unlock, so list and ownership differ
 by the one mutex a thread is waiting for or has just released.
*/
module LockProtocol {
  import opened LockOrder
  import opened Wrappers

  datatype Pc =
    | Running
    | Waiting(m: nat)    // checked and recorded, at mutex_.lock()
    | Released(m: nat)   // past mutex_.unlock(), entry not yet removed

  /** reported: the thread's latest check reported a violation. */
  datatype Thread = Thread(pc: Pc, held: seq<int>, reported: bool)

  /**
   levels[m] is the level of mutex m, owner[m] the thread that has it. reported: some check has reported;
   overflowed: some list has been full when an entry was to be recorded.
  */
  datatype Sys = Sys(levels: seq<int>, owner: seq<Option<nat>>, threads: seq<Thread>, reported: bool, overflowed: bool) {
    predicate Shape() {
      && |owner| == |levels|
      && forall m :: 0 <= m < |levels| ==> 1 <= levels[m] <= TOP_LEVEL
    }

    predicate Owns(t: nat, m: nat) {
      m < |owner| && owner[m] == Some(t)
    }
  }

  datatype Step =
    | Check(t: nat, m: nat)
    | Acquire(t: nat)
    | Unlock(t: nat, m: nat)
    | Forget(t: nat)

  function Init(levels: seq<int>, n: nat): Sys {
    Sys(levels, seq(|levels|, _ => None), seq(n, _ => Thread(Running, [], false)), false, false)
  }

  predicate Enabled(s: Sys, a: Step)
    requires s.Shape()
  {
    && a.t < |s.threads|
    && var pc := s.threads[a.t].pc;
       match a
       case Check(_, m) => pc == Running && m < |s.levels|
       case Acquire(_) => pc.Waiting? && pc.m < |s.levels| && s.owner[pc.m] == None
       case Unlock(t, m) => pc == Running && s.Owns(t, m)
       case Forget(_) => pc.Released? && pc.m < |s.levels|
  }

  function Put(s: Sys, t: nat, me: Thread): Sys
    requires t < |s.threads|
  {
    s.(threads := s.threads[t := me])
  }

  function Next(s: Sys, a: Step): Sys
    requires s.Shape() && Enabled(s, a)
  {
    var me := s.threads[a.t];
    match a
    case Check(t, m) =>
      var report := Violates(me.held, s.levels[m]);
      Put(s, t, Thread(Waiting(m), Recorded(me.held, s.levels[m]), report))
        .(reported := s.reported || report, overflowed := s.overflowed || |me.held| >= MAX_HELD)
    case Acquire(t) => Put(s, t, me.(pc := Running)).(owner := s.owner[me.pc.m := Some(t)])
    case Unlock(t, m) => Put(s, t, me.(pc := Released(m))).(owner := s.owner[m := None])
    case Forget(t) => Put(s, t, me.(pc := Running, held := Removed(me.held, s.levels[me.pc.m])))
  }

  ghost predicate IsRun(s: Sys, run: seq<Step>)
    requires s.Shape()
    decreases |run|
  {
    run == [] || (Enabled(s, run[0]) && IsRun(Next(s, run[0]), run[1..]))
  }

  ghost function End(s: Sys, run: seq<Step>): Sys
    requires s.Shape() && IsRun(s, run)
    decreases |run|
  {
    if run == [] then s else End(Next(s, run[0]), run[1..])
  }

  // ---------------------------------------------------------------- the invariant

  predicate Increasing(held: seq<int>) {
    && (forall i, j :: 0 <= i < j < |held| ==> held[i] < held[j])
    && (forall i :: 0 <= i < |held| ==> 1 <= held[i] <= TOP_LEVEL)
  }

  /** l is the level of a mutex thread t owns. */
  ghost predicate OwnsLevel(s: Sys, t: nat, l: int)
    requires s.Shape()
  {
    exists m: nat :: s.Owns(t, m) && s.levels[m] == l
  }

  /** The mutex, if any, on which the list and the ownership differ. */
  predicate Pending(s: Sys, t: nat, l: int)
    requires s.Shape() && t < |s.threads|
  {
    var pc := s.threads[t].pc;
    pc != Running && pc.m < |s.levels| && s.levels[pc.m] == l
  }

  /** The list is the sorted set of owned levels, plus the pending one. */
  ghost predicate Exact(s: Sys, t: nat)
    requires s.Shape() && t < |s.threads|
  {
    var held := s.threads[t].held;
    && (forall m: nat :: s.Owns(t, m) ==> s.levels[m] in held && !Pending(s, t, s.levels[m]))
    && (forall l :: l in held ==> OwnsLevel(s, t, l) || Pending(s, t, l))
  }

  /** No two mutexes of the same level in one thread. */
  ghost predicate Distinct(s: Sys, t: nat)
    requires s.Shape()
  {
    forall m: nat, k: nat :: s.Owns(t, m) && s.Owns(t, k) && s.levels[m] == s.levels[k] ==> m == k
  }

  predicate AtPc(s: Sys, t: nat)
    requires s.Shape() && t < |s.threads|
  {
    var me := s.threads[t];
    && (me.pc != Running ==> me.pc.m < |s.levels| && s.levels[me.pc.m] in me.held)
    && (me.pc.Waiting? ==> me.held[|me.held| - 1] == s.levels[me.pc.m])
  }

  ghost predicate ThreadInv(s: Sys, t: nat)
    requires s.Shape() && t < |s.threads|
  {
    Increasing(s.threads[t].held) && AtPc(s, t) && Exact(s, t) && Distinct(s, t)
  }

  ghost predicate Inv(s: Sys) {
    && s.Shape()
    && (forall m :: 0 <= m < |s.owner| && s.owner[m].Some? ==> s.owner[m].value < |s.threads|)
    && (forall t :: 0 <= t < |s.threads| ==> ThreadInv(s, t))
  }

  /** A strictly increasing list of levels has at most six entries, so the cap of 16 is never met. */
  lemma {:induction false} AtMostSix(held: seq<int>)
    requires Increasing(held)
    ensures |held| > 0 ==> |held| <= held[|held| - 1]
    ensures |held| <= TOP_LEVEL
  {
    if held != [] {
      AtMostSix(held[..|held| - 1]);
    }
  }

  lemma Membership(held: seq<int>, x: int)
    requires held != []
    ensures x in held <==> x in held[..|held| - 1] || x == held[|held| - 1]
  {
    assert held == held[..|held| - 1] + [held[|held| - 1]];
  }

  /** Removing drops exactly the level. */
  lemma {:induction false} RemovedMembers(held: seq<int>, l: int, x: int)
    requires Increasing(held)
    ensures x in Removed(held, l) <==> x in held && x != l
  {
    if held != [] {
      var front, last := held[..|held| - 1], held[|held| - 1];
      Membership(held, x);
      if last != l {
        RemovedMembers(front, l, x);
        Membership(Removed(front, l) + [last], x);
        assert (Removed(front, l) + [last])[..|Removed(front, l)|] == Removed(front, l);
      }
    }
  }

  lemma {:induction false} RemovedIncreasing(held: seq<int>, l: int)
    requires Increasing(held)
    ensures Increasing(Removed(held, l))
  {
    if held != [] && held[|held| - 1] != l {
      var front, last := held[..|held| - 1], held[|held| - 1];
      RemovedIncreasing(front, l);
      var rest := Removed(front, l);
      forall i | 0 <= i < |rest|
        ensures rest[i] < last
      {
        RemovedMembers(front, l, rest[i]);
      }
    }
  }

  lemma RemovedFromIncreasing(held: seq<int>, l: int)
    requires Increasing(held)
    ensures Increasing(Removed(held, l))
    ensures forall x :: x in Removed(held, l) <==> x in held && x != l
  {
    RemovedIncreasing(held, l);
    forall x
      ensures x in Removed(held, l) <==> x in held && x != l
    {
      RemovedMembers(held, l, x);
    }
  }

  // ---------------------------------------------------------------- steps keep it

  /** What thread t sees of the mutexes it owns is unchanged by the step of another thread. */
  lemma OthersKeep(s: Sys, a: Step, t: nat)
    requires Inv(s) && Enabled(s, a) && t < |s.threads| && t != a.t
    ensures ThreadInv(Next(s, a), t)
  {
    var n := Next(s, a);
    assert n.threads[t] == s.threads[t];
    forall m: nat
      ensures n.Owns(t, m) <==> s.Owns(t, m)
    {
    }
    assert ThreadInv(s, t);
    forall l | l in n.threads[t].held
      ensures OwnsLevel(n, t, l) || Pending(n, t, l)
    {
      if OwnsLevel(s, t, l) {
        var m: nat :| s.Owns(t, m) && s.levels[m] == l;
        assert n.Owns(t, m);
      }
    }
  }

  lemma OwnsLevelStays(s: Sys, n: Sys, t: nat, l: int, except: nat)
    requires s.Shape() && n.Shape() && n.levels == s.levels && OwnsLevel(s, t, l)
    requires forall m: nat :: m != except && s.Owns(t, m) ==> n.Owns(t, m)
    ensures OwnsLevel(n, t, l) || (except < |s.levels| && s.levels[except] == l)
  {
    var m: nat :| s.Owns(t, m) && s.levels[m] == l;
    assert m != except ==> n.Owns(t, m);
  }

  /** Owning less keeps the owned levels distinct. */
  lemma DistinctStays(s: Sys, n: Sys, t: nat)
    requires s.Shape() && n.Shape() && n.levels == s.levels && Distinct(s, t)
    requires forall m: nat :: n.Owns(t, m) ==> s.Owns(t, m)
    ensures Distinct(n, t)
  {
    forall k: nat, j: nat | n.Owns(t, k) && n.Owns(t, j) && n.levels[k] == n.levels[j]
      ensures k == j
    {
      assert s.Owns(t, k) && s.Owns(t, j);
    }
  }

  lemma CheckKeeps(s: Sys, t: nat, m: nat)
    requires Inv(s) && Enabled(s, Check(t, m)) && !Violates(s.threads[t].held, s.levels[m])
    ensures ThreadInv(Next(s, Check(t, m)), t)
  {
    var n, held, l := Next(s, Check(t, m)), s.threads[t].held, s.levels[m];
    assert ThreadInv(s, t);
    AtMostSix(held);
    var more := n.threads[t].held;
    assert more == held + [l];
    assert forall i :: 0 <= i < |held| ==> held[i] < l;
    assert Increasing(more);
    assert more[|held|] == l;
    forall k: nat | n.Owns(t, k)
      ensures s.levels[k] in more && !Pending(n, t, s.levels[k])
    {
      assert s.Owns(t, k);
      assert s.levels[k] in held;
    }
    forall x | x in more
      ensures OwnsLevel(n, t, x) || Pending(n, t, x)
    {
      if x in held { OwnsLevelStays(s, n, t, x, |s.levels|); }
    }
    DistinctStays(s, n, t);
  }

  lemma AcquireKeeps(s: Sys, t: nat)
    requires Inv(s) && Enabled(s, Acquire(t))
    ensures ThreadInv(Next(s, Acquire(t)), t)
  {
    var n, m := Next(s, Acquire(t)), s.threads[t].pc.m;
    assert ThreadInv(s, t);
    forall k: nat
      ensures n.Owns(t, k) <==> k == m || s.Owns(t, k)
    {
    }
    forall x | x in n.threads[t].held
      ensures OwnsLevel(n, t, x)
    {
      if Pending(s, t, x) {
        assert n.Owns(t, m) && n.levels[m] == x;
      } else {
        OwnsLevelStays(s, n, t, x, |s.levels|);
      }
    }
    assert Distinct(n, t) by {
      forall k: nat, j: nat | n.Owns(t, k) && n.Owns(t, j) && n.levels[k] == n.levels[j]
        ensures k == j
      {
        assert Pending(s, t, s.levels[m]);
        assert s.Owns(t, k) ==> !Pending(s, t, s.levels[k]);
        assert s.Owns(t, j) ==> !Pending(s, t, s.levels[j]);
      }
    }
  }

  lemma UnlockKeeps(s: Sys, t: nat, m: nat)
    requires Inv(s) && Enabled(s, Unlock(t, m))
    ensures ThreadInv(Next(s, Unlock(t, m)), t)
  {
    var n := Next(s, Unlock(t, m));
    assert ThreadInv(s, t);
    forall k: nat
      ensures n.Owns(t, k) <==> k != m && s.Owns(t, k)
    {
    }
    forall x | x in n.threads[t].held
      ensures OwnsLevel(n, t, x) || Pending(n, t, x)
    {
      OwnsLevelStays(s, n, t, x, m);
    }
    DistinctStays(s, n, t);
  }

  lemma ForgetKeeps(s: Sys, t: nat)
    requires Inv(s) && Enabled(s, Forget(t))
    ensures ThreadInv(Next(s, Forget(t)), t)
  {
    var n, l := Next(s, Forget(t)), s.levels[s.threads[t].pc.m];
    assert ThreadInv(s, t);
    RemovedFromIncreasing(s.threads[t].held, l);
    forall x | x in n.threads[t].held
      ensures OwnsLevel(n, t, x)
    {
      OwnsLevelStays(s, n, t, x, |s.levels|);
    }
    forall k: nat | n.Owns(t, k)
      ensures n.levels[k] in n.threads[t].held
    {
      assert s.Owns(t, k);
      assert !Pending(s, t, s.levels[k]);
    }
    DistinctStays(s, n, t);
  }

  /** Every step keeps the invariant, unless it is a check that reports a violation. */
  lemma StepKeepsInv(s: Sys, a: Step)
    requires Inv(s) && Enabled(s, a) && !s.reported && !Next(s, a).reported
    ensures Inv(Next(s, a))
  {
    match a {
      case Check(t, m) => CheckKeeps(s, t, m);
      case Acquire(t) => AcquireKeeps(s, t);
      case Unlock(t, m) => UnlockKeeps(s, t, m);
      case Forget(t) => ForgetKeeps(s, t);
    }
    hide ThreadInv;
    forall t | 0 <= t < |s.threads|
      ensures ThreadInv(Next(s, a), t)
    {
      if t != a.t { OthersKeep(s, a, t); }
    }
  }

  lemma InitInv(levels: seq<int>, n: nat)
    requires forall m :: 0 <= m < |levels| ==> 1 <= levels[m] <= TOP_LEVEL
    ensures Inv(Init(levels, n))
  {
    var s := Init(levels, n);
    forall t | 0 <= t < n
      ensures ThreadInv(s, t)
    {
    }
  }

  lemma ReportIsForever(s: Sys, a: Step)
    requires s.Shape() && Enabled(s, a)
    ensures Next(s, a).Shape() && (s.reported ==> Next(s, a).reported)
  {
  }

  lemma {:induction false} ReportLasts(s: Sys, run: seq<Step>)
    requires s.Shape() && IsRun(s, run) && s.reported
    ensures End(s, run).reported
    decreases |run|
  {
    if run != [] {
      ReportIsForever(s, run[0]);
      ReportLasts(Next(s, run[0]), run[1..]);
    }
  }

  /** Over a whole run that ends with nothing reported, the invariant holds at the end. */
  lemma {:induction false} RunKeepsInv(s: Sys, run: seq<Step>)
    requires Inv(s) && IsRun(s, run) && !s.reported && !End(s, run).reported
    ensures Inv(End(s, run))
    decreases |run|
  {
    if run != [] {
      var n := Next(s, run[0]);
      if n.reported {
        ReportLasts(n, run[1..]);
      } else {
        StepKeepsInv(s, run[0]);
        RunKeepsInv(n, run[1..]);
      }
    }
  }

  // ---------------------------------------------------------------- what it buys

  ghost predicate Reachable(s: Sys) {
    s.Shape() && exists levels: seq<int>, n: nat, run: seq<Step> ::
      && (forall m :: 0 <= m < |levels| ==> 1 <= levels[m] <= TOP_LEVEL)
      && IsRun(Init(levels, n), run) && s == End(Init(levels, n), run)
  }

  lemma ReachableInv(s: Sys)
    requires Reachable(s) && !s.reported
    ensures Inv(s)
  {
    var levels: seq<int>, n: nat, run: seq<Step> :|
      && (forall m :: 0 <= m < |levels| ==> 1 <= levels[m] <= TOP_LEVEL)
      && IsRun(Init(levels, n), run) && s == End(Init(levels, n), run);
    InitInv(levels, n);
    RunKeepsInv(Init(levels, n), run);
  }

  /** Lists are strictly increasing, hold at most six entries, and recording never drops one. */
  lemma ListsStayShort(s: Sys, t: nat, lvl: int)
    requires Reachable(s) && !s.reported && t < |s.threads|
    ensures Increasing(s.threads[t].held)
    ensures |s.threads[t].held| <= TOP_LEVEL
    ensures Recorded(s.threads[t].held, lvl) == s.threads[t].held + [lvl]
  {
    ReachableInv(s);
    assert ThreadInv(s, t);
    AtMostSix(s.threads[t].held);
  }

  /** The first report is never a false alarm and never late: it is made exactly when the thread owns a mutex of that level or higher. */
  lemma ReportIsExact(s: Sys, t: nat, m: nat)
    requires Reachable(s) && !s.reported && Enabled(s, Check(t, m))
    ensures Next(s, Check(t, m)).reported <==> exists k: nat :: s.Owns(t, k) && s.levels[k] >= s.levels[m]
  {
    ReachableInv(s);
    assert ThreadInv(s, t);
    var held, l := s.threads[t].held, s.levels[m];
    if Violates(held, l) {
      var i :| 0 <= i < |held| && held[i] >= l;
      assert OwnsLevel(s, t, held[i]);
      var k: nat :| s.Owns(t, k) && s.levels[k] == held[i];
    }
    if k: nat :| s.Owns(t, k) && s.levels[k] >= l {
      assert s.levels[k] in held;
    }
  }

  predicate Blocked(s: Sys, t: nat)
    requires t < |s.threads|
  {
    var pc := s.threads[t].pc;
    pc.Waiting? && pc.m < |s.owner| && s.owner[pc.m] != None
  }

  /** Following a blocked thread to the owner of what it waits for climbs the levels, so it ends. */
  lemma {:induction false} SomeOwnerIsFree(s: Sys, t: nat) returns (u: nat, k: nat)
    requires Inv(s) && t < |s.threads| && Blocked(s, t)
    ensures u < |s.threads| && s.Owns(u, k) && !Blocked(s, u)
    ensures s.levels[k] >= s.levels[s.threads[t].pc.m]
    decreases TOP_LEVEL - s.levels[s.threads[t].pc.m]
  {
    k := s.threads[t].pc.m;
    u := s.owner[k].value;
    if Blocked(s, u) {
      assert ThreadInv(s, u);
      var held, l := s.threads[u].held, s.levels[k];
      assert s.Owns(u, k);
      assert l in held && !Pending(s, u, l);
      var i :| 0 <= i < |held| && held[i] == l;
      assert i < |held| - 1;
      u, k := SomeOwnerIsFree(s, u);
    }
  }

  /** A thread that is not blocked and owns something, or waits for a free mutex, has a step. */
  lemma FreeThreadCanMove(s: Sys, t: nat, k: nat) returns (a: Step)
    requires Inv(s) && t < |s.threads| && s.Owns(t, k) && !Blocked(s, t)
    ensures a.t == t && Enabled(s, a) && !a.Check?
  {
    assert ThreadInv(s, t);
    match s.threads[t].pc {
      case Running => a := Unlock(t, k);
      case Waiting(_) => a := Acquire(t);
      case Released(_) => a := Forget(t);
    }
  }

  /** No deadlock: while a thread is blocked, some thread that owns a lock can take a step towards releasing. */
  lemma NoDeadlock(s: Sys, t: nat)
    requires Reachable(s) && !s.reported && t < |s.threads| && Blocked(s, t)
    ensures s.Shape() && exists u: nat, k: nat, a: Step ::
              u < |s.threads| && s.Owns(u, k) && !Blocked(s, u) && a.t == u && Enabled(s, a) && !a.Check?
  {
    ReachableInv(s);
    var u, k := SomeOwnerIsFree(s, t);
    var a := FreeThreadCanMove(s, u, k);
    assert u < |s.threads| && s.Owns(u, k) && !Blocked(s, u) && a.t == u && Enabled(s, a) && !a.Check?;
  }

  // ---------------------------------------------------------------- why the report matters

  const AB: seq<Step> := [Check(0, 0), Acquire(0), Check(1, 1), Acquire(1), Check(0, 1)]

  const HELD_AB := Sys([1, 2], [Some(0), Some(1)], [Thread(Waiting(1), [1, 2], false), Thread(Running, [2], false)], false, false)

  /** The state after the first i steps of AB. */
  function AlongAB(i: nat): Sys {
    var l, t0, t1 := [1, 2], Thread(Running, [], false), Thread(Running, [], false);
    if i == 0 then Sys(l, [None, None], [t0, t1], false, false)
    else if i == 1 then Sys(l, [None, None], [Thread(Waiting(0), [1], false), t1], false, false)
    else if i == 2 then Sys(l, [Some(0), None], [Thread(Running, [1], false), t1], false, false)
    else if i == 3 then Sys(l, [Some(0), None], [Thread(Running, [1], false), Thread(Waiting(1), [2], false)], false, false)
    else if i == 4 then Sys(l, [Some(0), Some(1)], [Thread(Running, [1], false), Thread(Running, [2], false)], false, false)
    else HELD_AB
  }

  /** The checks along AB pass and record. */
  lemma FirstChecks()
    ensures !Violates([], 1) && !Violates([], 2) && !Violates([1], 2)
    ensures Recorded([], 1) == [1] && Recorded([], 2) == [2] && Recorded([1], 2) == [1, 2]
  {
  }

  lemma StepAlongAB(i: nat)
    requires i < 5
    ensures AlongAB(i).Shape() && Enabled(AlongAB(i), AB[i]) && Next(AlongAB(i), AB[i]) == AlongAB(i + 1)
  {
    FirstChecks();
    hide Violates, Recorded;
    if i < 2 {
      var t := Thread(Running, [], false);
      assert [t, t][0 := Thread(Waiting(0), [1], false)] == [Thread(Waiting(0), [1], false), t];
      assert [Thread(Waiting(0), [1], false), t][0 := Thread(Running, [1], false)] == [Thread(Running, [1], false), t];
      assert [None, None][0 := Some(0 as nat)] == [Some(0), None];
    } else if i < 4 {
      var t := Thread(Running, [1], false);
      assert [t, Thread(Running, [], false)][1 := Thread(Waiting(1), [2], false)] == [t, Thread(Waiting(1), [2], false)];
      assert [t, Thread(Waiting(1), [2], false)][1 := Thread(Running, [2], false)] == [t, Thread(Running, [2], false)];
      assert [Some(0 as nat), None][1 := Some(1 as nat)] == [Some(0), Some(1)];
    } else {
      var t := Thread(Running, [2], false);
      assert [Thread(Running, [1], false), t][0 := Thread(Waiting(1), [1, 2], false)] == [Thread(Waiting(1), [1, 2], false), t];
    }
  }

  lemma {:induction false} ReachesAB(i: nat)
    requires i <= 5
    ensures AlongAB(i).Shape() && IsRun(AlongAB(i), AB[i..]) && End(AlongAB(i), AB[i..]) == HELD_AB
    decreases 5 - i
  {
    if i < 5 {
      StepAlongAB(i);
      ReachesAB(i + 1);
      hide AlongAB, Next, Enabled;
      assert AB[i..][0] == AB[i] && AB[i..][1..] == AB[i + 1..];
    }
  }

  lemma HeldABIsReachable()
    ensures Reachable(HELD_AB)
  {
    var s := Init([1, 2], 2);
    ReachesAB(0);
    assert AB[0..] == AB;
    assert s.owner == AlongAB(0).owner && s.threads == AlongAB(0).threads;
    assert IsRun(s, AB) && HELD_AB == End(s, AB);
  }

  /**
   Two threads taking two locks in opposite orders. Nothing is reported up to HELD_AB; the check that
   follows reports, and once its handler has returned no step is possible.
  */
  lemma ReportedRunCanDeadlock(a: Step)
    ensures Reachable(HELD_AB) && Enabled(HELD_AB, Check(1, 0))
    ensures var s := Next(HELD_AB, Check(1, 0));
            s.reported && Blocked(s, 0) && Blocked(s, 1) && s.Shape() && !Enabled(s, a)
  {
    HeldABIsReachable();
    assert Violates([2], 1) by { assert [2][0] >= 1; }
  }
}
