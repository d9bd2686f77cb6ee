/**
 When a concurrent drop-oldest consumer breaks the ring's bound, in terms of what can be seen when
 acquireRead is called: it was called on a ring holding no frame, and every write committed while it
 ran was one that dropped.
*/
module RingAcquires {
  import opened RingBuffers
  import opened RingProtocol

  /** The state after the first i steps. */
  ghost function At<V>(s: Sys<V>, run: seq<Step<V>>, i: nat): (r: Sys<V>)
    requires s.Shape() && IsRun(s, run) && i <= |run|
    ensures r.Shape()
    decreases i
  {
    if i == 0 then s else At(Next(s, run[0]), run[1..], i - 1)
  }

  lemma {:induction false} AtNext<V>(s: Sys<V>, run: seq<Step<V>>, i: nat)
    requires s.Shape() && IsRun(s, run) && i < |run|
    ensures Enabled(At(s, run, i), run[i]) && At(s, run, i + 1) == Next(At(s, run, i), run[i])
    decreases i
  {
    assert Next(s, run[0]).Shape();
    hide Next, Enabled;
    if i == 0 {
      assert At(s, run, 1) == At(Next(s, run[0]), run[1..], 0);
    } else {
      AtNext(Next(s, run[0]), run[1..], i - 1);
    }
  }

  lemma {:induction false} AtCounted<V>(s: Sys<V>, run: seq<Step<V>>, i: nat)
    requires Counted(s) && IsRun(s, run) && i <= |run|
    ensures Counted(At(s, run, i))
    decreases i
  {
    if i > 0 {
      AtCounted(s, run, i - 1);
      AtNext(s, run, i - 1);
      StepKeepsCounted(At(s, run, i - 1), run[i - 1]);
    }
  }

  ghost predicate ProducerOnly<V>(run: seq<Step<V>>, i: int, j: int) {
    forall k :: 0 <= k < |run| && i <= k < j ==> run[k].Producer()
  }

  /** Every commit among steps i .. j - 1 completes a write that dropped a frame. */
  ghost predicate OnlyDroppingCommits<V>(s: Sys<V>, run: seq<Step<V>>, i: nat, j: nat)
    requires s.Shape() && IsRun(s, run) && j <= |run|
  {
    forall k :: i <= k < j && run[k].CommitWrite? ==> At(s, run, k).p == Filled(true)
  }

  /** How far tail is past the last frame written or being written after a drop. */
  function Excess<V>(s: Sys<V>): int {
    s.tail - s.head - s.Pending()
  }

  /** Only a commit without a drop changes it, for the better. */
  lemma ProducerExcess<V>(s: Sys<V>, a: Step<V>)
    requires s.Shape() && Enabled(s, a) && a.Producer()
    ensures Next(s, a).c == s.c
    ensures Excess(Next(s, a)) == Excess(s) - if a.CommitWrite? && s.p == Filled(false) then 1 else 0
  {
    hide Slot, Full;
  }

  lemma {:induction false} ExcessOver<V>(s: Sys<V>, run: seq<Step<V>>, i: nat, j: nat)
    requires s.Shape() && IsRun(s, run) && i <= j <= |run| && ProducerOnly(run, i, j)
    ensures At(s, run, j).c == At(s, run, i).c
    ensures Excess(At(s, run, j)) <= Excess(At(s, run, i))
    ensures Excess(At(s, run, j)) == Excess(At(s, run, i)) <==> OnlyDroppingCommits(s, run, i, j)
    decreases j
  {
    if i < j {
      var m := j - 1;
      ExcessOver(s, run, i, m);
      AtNext(s, run, m);
      assert run[m].Producer();
      ProducerExcess(At(s, run, m), run[m]);
      hide At, Next, Excess;
      if OnlyDroppingCommits(s, run, i, m) && (run[m].CommitWrite? ==> At(s, run, m).p == Filled(true)) {
        assert OnlyDroppingCommits(s, run, i, j);
      }
    }
  }

  /** The ring holds no frame that has not been dropped already. */
  predicate HoldsNone<V>(s: Sys<V>) {
    s.tail == s.head + s.Pending()
  }

  /**
   Step i reads tail and step j head, of one acquireRead: the ring held no frame when it began, it acquires
   one nevertheless, and every write committed in between was a dropping one.
  */
  ghost predicate RacedOnEmpty<V>(s: Sys<V>, run: seq<Step<V>>, i: nat, j: nat)
    requires s.Shape() && IsRun(s, run)
  {
    && i < j < |run| && run[i].ReadTail? && run[j].ReadHead? && ProducerOnly(run, i + 1, j)
    && HoldsNone(At(s, run, i)) && At(s, run, i).tail < At(s, run, j).head
    && OnlyDroppingCommits(s, run, i + 1, j)
  }

  /** One acquireRead that starts with the bound intact breaks it exactly when it races on an empty ring. */
  lemma AcquireBreaksIff<V>(s: Sys<V>, run: seq<Step<V>>, i: nat, j: nat)
    requires Counted(s) && IsRun(s, run) && i < j < |run|
    requires run[i].ReadTail? && run[j].ReadHead? && ProducerOnly(run, i + 1, j) && Claim(At(s, run, i))
    ensures Claim(At(s, run, j)) && (StaleAcquire(At(s, run, j), run[j]) <==> RacedOnEmpty(s, run, i, j))
    ensures Claim(At(s, run, j + 1)) <==> !RacedOnEmpty(s, run, i, j)
  {
    AtNext(s, run, i);
    ExcessOver(s, run, i + 1, j);
    AtCounted(s, run, j);
    AtNext(s, run, j);
    var a, b, c := At(s, run, i), At(s, run, i + 1), At(s, run, j);
    assert b == a.(c := GotTail(a.tail));
    hide At, Next, ProducerOnly, OnlyDroppingCommits, Counted;
    assert c.c == b.c && Excess(b) == Excess(a);
    StepKeepsClaimIff(c, run[j]);
  }

  /** What a caller can rely on: an acquireRead called on a ring with an unread frame never breaks the bound. */
  lemma NonEmptyAcquireIsSafe<V>(s: Sys<V>, run: seq<Step<V>>, i: nat, j: nat)
    requires Counted(s) && IsRun(s, run) && i < j < |run|
    requires run[i].ReadTail? && run[j].ReadHead? && ProducerOnly(run, i + 1, j) && Claim(At(s, run, i))
    requires At(s, run, i).tail < At(s, run, i).head
    ensures Claim(At(s, run, j + 1))
  {
    AcquireBreaksIff(s, run, i, j);
  }

  // ---------------------------------------------------------------- whole runs

  lemma {:induction false} HoldsAt<V>(s: Sys<V>, run: seq<Step<V>>, k: nat)
    requires s.Shape() && IsRun(s, run) && ClaimThroughout(s, run) && k <= |run|
    ensures Claim(At(s, run, k))
    decreases k
  {
    if k > 0 {
      hide Claim, Next, Enabled;
      HoldsAt(Next(s, run[0]), run[1..], k - 1);
    }
  }

  lemma {:induction false} FailsSomewhere<V>(s: Sys<V>, run: seq<Step<V>>) returns (k: nat)
    requires s.Shape() && IsRun(s, run) && !ClaimThroughout(s, run)
    ensures k <= |run| && !Claim(At(s, run, k))
    decreases |run|
  {
    k := 0;
    if Claim(s) {
      hide Claim, Next, Enabled;
      var n := FailsSomewhere(Next(s, run[0]), run[1..]);
      k := n + 1;
    }
  }

  /** A consumer that has read tail did so at some step, and only the producer has moved since. */
  lemma {:induction false} LastReadTail<V>(s: Sys<V>, run: seq<Step<V>>, j: nat) returns (i: nat)
    requires s.Shape() && IsRun(s, run) && j <= |run| && !s.c.GotTail? && At(s, run, j).c.GotTail?
    ensures i < j && run[i].ReadTail? && ProducerOnly(run, i + 1, j)
    decreases j
  {
    assert At(s, run, 0) == s;
    i := j - 1;
    AtNext(s, run, i);
    hide At, Slot, Full;
    if !run[i].ReadTail? {
      assert run[j - 1].Producer();
      i := LastReadTail(s, run, j - 1);
    }
  }

  lemma {:induction false} FirstBreak<V>(s: Sys<V>, run: seq<Step<V>>, k: nat) returns (j: nat)
    requires s.Shape() && IsRun(s, run) && k <= |run| && Claim(s) && !Claim(At(s, run, k))
    ensures j < k && Claim(At(s, run, j)) && !Claim(At(s, run, j + 1))
    ensures forall m: nat :: m <= j ==> Claim(At(s, run, m))
    decreases k
  {
    hide Claim;
    assert At(s, run, 0) == s;
    if m: nat :| m < k && !Claim(At(s, run, m)) {
      j := FirstBreak(s, run, m);
    } else {
      j := k - 1;
    }
  }

  /** Along a run the bound holds exactly when no acquireRead in it races on an empty ring. */
  lemma ClaimHoldsIffNoRace<V>(s: Sys<V>, run: seq<Step<V>>)
    requires Counted(s) && Claim(s) && IsRun(s, run) && !s.c.GotTail?
    ensures ClaimThroughout(s, run) <==> forall i: nat, j: nat :: !RacedOnEmpty(s, run, i, j)
  {
    assert s.Shape();
    hide Counted, Claim, IsRun, At, RacedOnEmpty, ClaimThroughout, StaleAcquire;
    if ClaimThroughout(s, run) {
      forall i: nat, j: nat
        ensures !RacedOnEmpty(s, run, i, j)
      {
        if RacedOnEmpty(s, run, i, j) {
          RaceIsInside(s, run, i, j);
          HoldsAt(s, run, i);
          RaceBreaks(s, run, i, j);
          HoldsAt(s, run, j + 1);
        }
      }
    } else {
      var k := FailsSomewhere(s, run);
      var j := FirstBreak(s, run, k);
      var i := BreakIsRace(s, run, j);
    }
  }

  lemma RaceIsInside<V>(s: Sys<V>, run: seq<Step<V>>, i: nat, j: nat)
    requires s.Shape() && IsRun(s, run) && RacedOnEmpty(s, run, i, j)
    ensures i < j < |run|
  {
  }

  lemma RaceBreaks<V>(s: Sys<V>, run: seq<Step<V>>, i: nat, j: nat)
    requires Counted(s) && IsRun(s, run) && RacedOnEmpty(s, run, i, j) && Claim(At(s, run, i))
    ensures j + 1 <= |run| && !Claim(At(s, run, j + 1))
  {
    AcquireBreaksIff(s, run, i, j);
  }

  lemma BreakIsRace<V>(s: Sys<V>, run: seq<Step<V>>, j: nat) returns (i: nat)
    requires Counted(s) && IsRun(s, run) && !s.c.GotTail? && j < |run|
    requires (forall m: nat :: m <= j ==> Claim(At(s, run, m))) && !Claim(At(s, run, j + 1))
    ensures RacedOnEmpty(s, run, i, j)
  {
    AtCounted(s, run, j);
    AtNext(s, run, j);
    StepKeepsClaimIff(At(s, run, j), run[j]);
    assert StaleAcquire(At(s, run, j), run[j]);
    i := LastReadTail(s, run, j);
    AcquireBreaksIff(s, run, i, j);
  }
}
