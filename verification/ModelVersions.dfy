/**
 Which model ModelManager serves while the swapper and the inference threads interleave: the one last
 activated, until a rollback brings back the one before it.
*/
module ModelVersions {
  import opened ModelBooks
  import opened ModelSwapProtocol

  /** The state after the first i actions. */
  ghost function After(s: Sys, run: seq<Action>, i: nat): Sys
    requires IsRun(s, run) && i <= |run|
    decreases i
  {
    if i == 0 then s else After(Apply(s, run[0]), run[1..], i - 1)
  }

  lemma {:induction false} AfterNext(s: Sys, run: seq<Action>, i: nat)
    requires IsRun(s, run) && i < |run|
    ensures Enabled(After(s, run, i), run[i]) && After(s, run, i + 1) == Apply(After(s, run, i), run[i])
    decreases i
  {
    hide Apply, Enabled;
    if i == 0 {
      assert After(s, run, 1) == After(Apply(s, run[0]), run[1..], 0);
    } else {
      AfterNext(Apply(s, run[0]), run[1..], i - 1);
    }
  }

  lemma {:induction false} InvAfter(s: Sys, run: seq<Action>, i: nat)
    requires Inv(s) && IsRun(s, run) && i <= |run|
    ensures Inv(After(s, run, i))
    decreases i
  {
    hide Inv, Apply, Enabled;
    if i > 0 {
      StepKeepsInv(s, run[0]);
      InvAfter(Apply(s, run[0]), run[1..], i - 1);
    }
  }

  // ---------------------------------------------------------------- the two steps that change what is served

  /** This step makes h the served model: activate() found that h was staged here. */
  predicate Activates(s: Sys, x: Action, h: Handle) {
    x.SwapAdvance? && s.swap == ActivateHeld(h) && h.data == s.books.core.stagedRegion.data
  }

  /** This step takes the served model back: rollback() found a previous one. */
  predicate RollsBack(s: Sys, x: Action) {
    x.SwapAdvance? && s.swap == RollbackHeld && s.books.core.previous.Valid()
  }

  predicate Swaps(s: Sys, x: Action) {
    RollsBack(s, x) || (s.swap.ActivateHeld? && Activates(s, x, s.swap.handle))
  }

  lemma ActivateStep(s: Sys, x: Action, h: Handle)
    requires Enabled(s, x) && Activates(s, x, h)
    ensures var c, n := s.books.core, Apply(s, x).books.core;
            && n.active == h && n.activeRegion == c.stagedRegion
            && n.previous == c.active && n.previousRegion == c.activeRegion
  {
  }

  lemma RollbackStep(s: Sys, x: Action)
    requires Enabled(s, x) && RollsBack(s, x)
    ensures var c, n := s.books.core, Apply(s, x).books.core;
            && n.active == c.previous && n.activeRegion == c.previousRegion
            && n.previous == NO_HANDLE && n.previousRegion == NO_REGION
            && (c.activeRegion.data != 0 ==> c.activeRegion in n.retired)
  {
  }

  predicate SameBuffers(c: Core, n: Core) {
    n.active == c.active && n.activeRegion == c.activeRegion && n.previous == c.previous && n.previousRegion == c.previousRegion
  }

  lemma OtherStep(s: Sys, x: Action)
    requires Enabled(s, x) && !Swaps(s, x)
    ensures SameBuffers(s.books.core, Apply(s, x).books.core)
  {
  }

  /** No swap succeeds among actions i .. j - 1. */
  ghost predicate NoSwap(s: Sys, run: seq<Action>, i: nat, j: nat)
    requires IsRun(s, run) && j <= |run|
  {
    forall k :: i <= k < j ==> !Swaps(After(s, run, k), run[k])
  }

  lemma {:induction false} BuffersKept(s: Sys, run: seq<Action>, i: nat, j: nat)
    requires IsRun(s, run) && i <= j <= |run| && NoSwap(s, run, i, j)
    ensures SameBuffers(After(s, run, i).books.core, After(s, run, j).books.core)
    decreases j
  {
    if i < j {
      assert NoSwap(s, run, i, j - 1) && !Swaps(After(s, run, j - 1), run[j - 1]);
      hide After, Apply, Enabled, Swaps, IsRun, NoSwap;
      BuffersKept(s, run, i, j - 1);
      AfterNext(s, run, j - 1);
      OtherStep(After(s, run, j - 1), run[j - 1]);
    }
  }

  // ---------------------------------------------------------------- along runs

  /** From a successful activation to the next successful swap, current() returns the activated handle, and its region is mapped. */
  lemma ActivatedIsServed(threads: set<nat>, run: seq<Action>, i: nat, j: nat, h: Handle)
    requires IsRun(Init(threads), run) && i < j <= |run|
    requires Activates(After(Init(threads), run, i), run[i], h) && NoSwap(Init(threads), run, i + 1, j)
    ensures After(Init(threads), run, j).books.core.active == h
    ensures h.data != 0 ==> h.data in After(Init(threads), run, j).books.mapped
  {
    var s := Init(threads);
    hide *;
    AfterNext(s, run, i);
    ActivateStep(After(s, run, i), run[i], h);
    BuffersKept(s, run, i + 1, j);
    SameActive(After(s, run, i + 1).books.core, After(s, run, j).books.core);
    InitInv(threads);
    InvAfter(s, run, j);
    ActiveIsMapped(After(s, run, j));
  }

  lemma SameActive(c: Core, n: Core)
    requires SameBuffers(c, n)
    ensures n.active == c.active
  {
  }

  lemma ActiveIsMapped(s: Sys)
    requires Inv(s)
    ensures s.books.core.active.data != 0 ==> s.books.core.active.data in s.books.mapped
  {
    var c, a := s.books.core, s.books.core.active.data;
    if a != 0 {
      assert a in Owned(c, Progress(s));
      OneOwner(s.books, Progress(s), InHand(s.swap), a);
    }
  }

  /** A reader that asks while h is active is handed h. */
  lemma CurrentReturnsActive(s: Sys, x: Action, t: nat)
    requires Enabled(s, x) && x == ReadAdvance(t) && s.readers[t].CurrentHeld?
    ensures Apply(s, x).readers[t] == CurrentUnlock(s.readers[t].held + {s.books.core.active.data})
  {
  }

  /**
   A successful rollback undoes the activation before it, whatever the readers did meanwhile: what was served
   before is served again and mapped, and the model activated in between is retired.
  */
  lemma RollbackUndoesActivate(threads: set<nat>, run: seq<Action>, i: nat, j: nat, h: Handle)
    requires IsRun(Init(threads), run) && i < j < |run|
    requires Activates(After(Init(threads), run, i), run[i], h) && RollsBack(After(Init(threads), run, j), run[j])
    requires NoSwap(Init(threads), run, i + 1, j)
    ensures var before, after := After(Init(threads), run, i).books, After(Init(threads), run, j + 1).books;
            && after.core.active == before.core.active && after.core.activeRegion == before.core.activeRegion
            && after.core.active.Valid() && after.core.active.data in after.mapped
            && after.core.previous == NO_HANDLE
            && (h.data != 0 ==> h.data in Data(after.core.retired))
  {
    var s := Init(threads);
    hide *;
    AfterNext(s, run, i);
    AfterNext(s, run, j);
    BuffersKept(s, run, i + 1, j);
    UndoSwap(After(s, run, i), run[i], h, After(s, run, j), run[j]);
    InitInv(threads);
    InvAfter(s, run, j + 1);
    ActiveIsMapped(After(s, run, j + 1));
  }

  /** The two steps, with the buffers unchanged in between. */
  lemma UndoSwap(a: Sys, x: Action, h: Handle, b: Sys, y: Action)
    requires Enabled(a, x) && Activates(a, x, h) && Enabled(b, y) && RollsBack(b, y)
    requires SameBuffers(Apply(a, x).books.core, b.books.core)
    ensures var c, n := a.books.core, Apply(b, y).books.core;
            && n.active == c.active && n.activeRegion == c.activeRegion && n.previous == NO_HANDLE
            && n.active.Valid() && n.active.data != 0
            && (h.data != 0 ==> h.data in Data(n.retired))
  {
    ActivateStep(a, x, h);
    RollbackStep(b, y);
    assert h.data == a.books.core.stagedRegion.data;
    hide Apply, Enabled, Data;
    if h.data != 0 { RetiredData(Apply(b, y).books.core.retired, a.books.core.stagedRegion); }
  }

  lemma RetiredData(rs: seq<Region>, r: Region)
    requires r in rs
    ensures r.data in Data(rs)
  {
    var i :| 0 <= i < |rs| && rs[i] == r;
    assert Data(rs)[i] == r.data;
  }

  /** After a rollback the next successful swap can only be an activation. */
  lemma NoSecondRollback(threads: set<nat>, run: seq<Action>, i: nat, j: nat)
    requires IsRun(Init(threads), run) && i < j < |run|
    requires RollsBack(After(Init(threads), run, i), run[i]) && NoSwap(Init(threads), run, i + 1, j)
    ensures !RollsBack(After(Init(threads), run, j), run[j])
  {
    var s := Init(threads);
    AfterNext(s, run, i);
    RollbackStep(After(s, run, i), run[i]);
    hide After, Apply, Enabled;
    BuffersKept(s, run, i + 1, j);
  }

  // ---------------------------------------------------------------- what is retired is unmapped

  /** a is on the retired list and not yet unmapped from it, or has been unmapped since the count was d. */
  predicate RetiredOrUnmapped(s: Sys, a: nat, d: nat) {
    && s.books.dead[a] >= d
    && (s.books.dead[a] > d || (Progress(s) <= |s.books.core.retired| && a in Data(s.books.core.retired[Progress(s)..])))
  }

  lemma FirstStep(s: Sys, run: seq<Action>, i: nat)
    requires IsRun(s, run) && 0 < i <= |run|
    ensures Enabled(s, run[0]) && IsRun(Apply(s, run[0]), run[1..])
    ensures After(s, run, i) == After(Apply(s, run[0]), run[1..], i - 1)
  {
    hide Apply, Enabled;
  }

  lemma NoStep(s: Sys, run: seq<Action>)
    requires IsRun(s, run)
    ensures After(s, run, 0) == s
  {
  }

  lemma InvHasLock(s: Sys)
    requires Inv(s)
    ensures LockInv(s)
  {
  }

  lemma {:induction false} RetiredUntilUnmapped(s: Sys, run: seq<Action>, a: nat, d: nat, i: nat)
    requires Inv(s) && IsRun(s, run) && i <= |run| && RetiredOrUnmapped(s, a, d)
    ensures RetiredOrUnmapped(After(s, run, i), a, d)
    decreases i
  {
    hide *;
    if i == 0 {
      NoStep(s, run);
    } else {
      FirstStep(s, run, i);
      InvHasLock(s);
      RetiredStep(s, run[0], a, d);
      StepKeepsInv(s, run[0]);
      RetiredUntilUnmapped(Apply(s, run[0]), run[1..], a, d, i - 1);
    }
  }

  lemma DataTail(rs: seq<Region>, i: nat, a: nat)
    requires i < |rs| && a in Data(rs[i..])
    ensures a == rs[i].data || a in Data(rs[i + 1..])
  {
    var k :| 0 <= k < |rs[i..]| && Data(rs[i..])[k] == a;
    if k > 0 { assert Data(rs[i + 1..])[k - 1] == rs[i + 1..][k - 1].data == a; }
  }

  lemma GrowsRetired(c: Core, r: Region, a: nat)
    requires a in Data(c.retired[0..])
    ensures a in Data(Retired(c, r)[0..])
  {
    var i :| 0 <= i < |c.retired| && Data(c.retired[0..])[i] == a;
    assert Data(Retired(c, r)[0..])[i] == a;
  }

  /** The drain loop's next step: the region is the one unmapped, or further on. */
  lemma DrainGoesOn(b: Books, i: nat, a: nat)
    requires i <= |b.core.retired| && a in Data(b.core.retired[i..])
    ensures i < |b.core.retired|
    ensures Drained(b, i).dead[a] > b.dead[a] || a in Data(b.core.retired[i + 1..])
  {
    if i < |b.core.retired| { DataTail(b.core.retired, i, a); }
  }

  lemma RetiredSwap(s: Sys, v: bool, a: nat, d: nat)
    requires LockInv(s) && Enabled(s, SwapAdvance(v)) && RetiredOrUnmapped(s, a, d)
    ensures RetiredOrUnmapped(SwapNext(s, v), a, d)
  {
    var c := s.books.core;
    assert Progress(s) == if s.swap.SwapUnmapping? then s.swap.i else 0;
    hide Data, Retired;
    if s.books.dead[a] == d {
      match s.swap {
        case ActivateHeld(h) => GrowsRetired(c, c.previousRegion, a);
        case RollbackHeld => GrowsRetired(c, c.activeRegion, a);
        case SwapUnmapping(i) => DrainGoesOn(s.books, i, a);
        case _ =>
      }
    }
  }

  lemma RetiredRead(s: Sys, t: nat, a: nat, d: nat)
    requires LockInv(s) && Enabled(s, ReadAdvance(t)) && RetiredOrUnmapped(s, a, d)
    ensures RetiredOrUnmapped(ReadNext(s, t), a, d)
  {
    hide Data;
    if s.books.dead[a] == d && s.readers[t].EndUnmapping? { DrainGoesOn(s.books, s.readers[t].i, a); }
  }

  lemma RetiredOther(s: Sys, x: Action, a: nat, d: nat)
    requires LockInv(s) && Enabled(s, x) && !x.SwapAdvance? && !x.ReadAdvance? && RetiredOrUnmapped(s, a, d)
    ensures RetiredOrUnmapped(Apply(s, x), a, d)
  {
    hide Data;
    assert Progress(Apply(s, x)) == Progress(s);
    assert Apply(s, x).books.dead == s.books.dead && Apply(s, x).books.core.retired == s.books.core.retired;
  }

  lemma ApplyIs(s: Sys, x: Action)
    requires Enabled(s, x)
    ensures x.SwapAdvance? ==> Apply(s, x) == SwapNext(s, x.verified)
    ensures x.ReadAdvance? ==> Apply(s, x) == ReadNext(s, x.t)
  {
    hide SwapNext, ReadNext;
  }

  lemma RetiredStep(s: Sys, x: Action, a: nat, d: nat)
    requires LockInv(s) && Enabled(s, x) && RetiredOrUnmapped(s, a, d)
    ensures RetiredOrUnmapped(Apply(s, x), a, d)
  {
    hide *;
    ApplyIs(s, x);
    if x.SwapAdvance? {
      RetiredSwap(s, x.verified, a, d);
    } else if x.ReadAdvance? {
      RetiredRead(s, x.t, a, d);
    } else {
      RetiredOther(s, x, a, d);
    }
  }

  lemma StartsRetired(s: Sys, a: nat)
    requires !Draining(s) && a in Data(s.books.core.retired)
    ensures RetiredOrUnmapped(s, a, s.books.dead[a])
  {
    hide Data;
    assert s.books.core.retired[0..] == s.books.core.retired;
    assert Progress(s) == 0;
  }

  /** From any state with the invariant: what is retired after i steps has been unmapped when the run ends at rest. */
  lemma RetiredIsUnmapped(s: Sys, run: seq<Action>, i: nat, a: nat)
    requires Inv(s) && IsRun(s, run) && i <= |run| && Quiet(After(s, run, |run|))
    requires !Draining(After(s, run, i)) && a in Data(After(s, run, i).books.core.retired)
    ensures After(s, run, |run|).books.dead[a] > After(s, run, i).books.dead[a]
  {
    hide *;
    StartsRetired(After(s, run, i), a);
    SplitRun(s, run, i);
    InvAfter(s, run, i);
    RetiredUntilUnmapped(After(s, run, i), run[i..], a, After(s, run, i).books.dead[a], |run| - i);
    InvAfter(s, run, |run|);
    QuietIsUnmapped(After(s, run, |run|), a, After(s, run, i).books.dead[a]);
  }

  /** Whatever was retired at some point has been unmapped once all threads are idle. */
  lemma RetiredIsUnmappedByRest(threads: set<nat>, run: seq<Action>, i: nat, a: nat)
    requires IsRun(Init(threads), run) && i <= |run| && Quiet(After(Init(threads), run, |run|))
    requires !Draining(After(Init(threads), run, i)) && a in Data(After(Init(threads), run, i).books.core.retired)
    ensures After(Init(threads), run, |run|).books.dead[a] > After(Init(threads), run, i).books.dead[a]
  {
    hide *;
    InitInv(threads);
    RetiredIsUnmapped(Init(threads), run, i, a);
  }

  lemma {:induction false} SplitRun(s: Sys, run: seq<Action>, i: nat)
    requires IsRun(s, run) && i <= |run|
    ensures IsRun(After(s, run, i), run[i..]) && After(After(s, run, i), run[i..], |run| - i) == After(s, run, |run|)
    decreases i
  {
    hide Apply, Enabled;
    if i == 0 {
      assert run[0..] == run;
    } else {
      SplitRun(Apply(s, run[0]), run[1..], i - 1);
      assert run[1..][i - 1..] == run[i..];
    }
  }

  lemma QuietIsUnmapped(s: Sys, a: nat, d: nat)
    requires Inv(s) && Quiet(s) && RetiredOrUnmapped(s, a, d)
    ensures s.books.dead[a] > d
  {
    QuietIsClean(s);
    hide Inv;
    assert s.books.core.retired == [];
  }
}
